/** Pool blocks: a main block and its side data, encoded one after the other
    (p2pool/sidechain/poolblock.go). */
module Templates {
  import opened Blocks
  import opened Bytes
  import opened Outputs
  import opened ExtraTags
  import opened Coinbase
  import opened MainBlock
  import opened SideData

  const MAX_TEMPLATE_SIZE: nat := 128 * 1024 - 5
  const HARD_FORK_VIEW_TAGS_VERSION: Byte := 15

  /** A pool block. The share version is cached and not part of the encoding. */
  datatype Template = Template(main: Block, side: Side, version: nat)

  /** What the network prescribes: the main-chain version at a height, the share version at a time, and
      the transaction key that belongs to a seed and a previous block. */
  datatype Rules = Rules(majorVersion: nat -> Byte, shareVersion: nat -> nat, key: (Bytes32, Bytes32) -> Bytes32)

  function IsV2(t: Template): bool { t.version > 1 }

  /** `CoinbaseExtra(SideTemplateId)` as a hash: the data of the merge-mining tag. */
  function TemplateTag(b: Block): Bytes32 {
    var data := TagData(b.coinbase.extra, TAG_MERGE_MINING);
    if |data| == 32 then data else ZERO32
  }

  function TagData(ts: seq<ExtraTag>, tag: Byte): Data {
    if ts == [] then [] else if ts[0].tag == tag then ts[0].data else TagData(ts[1..], tag)
  }

  // ---------------------------------------------------------------- writing

  function PutTemplate(t: Template, pruned: bool, compact: bool): Data {
    PutBody(t.main, pruned, compact) + PutSide(t.side, IsV2(t))
  }

  /** `PoolBlock.AppendBinaryFlags`: fails for unsupported versions and for blocks that are too large. */
  method AppendTemplate(buf: Data, t: Template, pruned: bool, compact: bool) returns (data: Option<Data>)
    requires forall i :: 0 <= i < |t.main.coinbase.extra| ==> t.main.coinbase.extra[i].varInt < MAX64
    ensures var out := if pruned || AllKnown(t.main.coinbase.outputs) then buf + PutTemplate(t, pruned, compact)
                       else Remnant(t.main, compact) + PutSide(t.side, IsV2(t));
      data == if Supported(t.main) && |out| <= MAX_TEMPLATE_SIZE then Some(out) else None
  {
    data := AppendBlock(buf, t.main, pruned, compact);
    if data.Some? {
      var out := AppendSide(data.value, t.side, IsV2(t));
      Cat(buf, PutBody(t.main, pruned, compact), PutSide(t.side, IsV2(t)));
      data := if |out| > MAX_TEMPLATE_SIZE then None else Some(out);
    }
  }

  /** `PoolBlock.BufferLength`. */
  function TemplateLength(t: Template, outputsLength: nat): nat {
    BlockLength(t.main, outputsLength) + SideLength(t.side)
  }

  // ---------------------------------------------------------------- reading

  /** `GetPrivateKeySeed`. */
  function KeySeed(rules: Rules, t: Template): Bytes32 {
    if IsV2(t) then t.side.privateKeySeed
    else if t.main.majorVersion < HARD_FORK_VIEW_TAGS_VERSION
         && rules.key(t.side.spendKey, t.main.previousId) != t.side.privateKey then ZERO32
    else t.side.spendKey
  }

  /** `FillPrivateKeys`: the key from the seed, or the seed from the address. */
  function FillKeys(rules: Rules, t: Template): Template {
    if !IsV2(t) then t.(side := t.side.(privateKeySeed := KeySeed(rules, t)))
    else if t.side.privateKey == ZERO32
      then t.(side := t.side.(privateKey := rules.key(KeySeed(rules, t), t.main.previousId)))
    else t
  }

  /** `FromReader` and `FromCompactReader`. A block without a merge-mining tag panics. */
  function ReadTemplate(rules: Rules, input: Data, compact: bool): Parsed<Template> {
    match ReadBlock(input, compact)
    case Failed => Failed
    case Parsed(main, r1) =>
      if rules.majorVersion(main.coinbase.genHeight) != main.majorVersion then Failed
      else if !HasTag(main.coinbase.extra, TAG_MERGE_MINING) then Failed
      else
        var version := rules.shareVersion(main.timestamp);
        match ReadSide(r1, version > 1)
        case Failed => Failed
        case Parsed(side, r2) => Parsed(FillKeys(rules, Template(main, side, version)), r2)
  }

  lemma KeyNotWritten(input: Data)
    ensures var p := ReadSide(input, true); p.Parsed? ==> p.value.privateKey == ZERO32
  {
  }

  /** The seed of a version 1 block: the spend key, unless an old block has another key. */
  function OldSeed(rules: Rules, t: Template): Bytes32 {
    if t.main.majorVersion < 15 && rules.key(t.side.spendKey, t.main.previousId) != t.side.privateKey then ZERO32
    else t.side.spendKey
  }

  /** What reading a block has checked, and the keys it has filled in: from version 2 on the key that belongs
      to the seed, before that the seed. */
  predicate Checked(rules: Rules, t: Template) {
    && t.version == rules.shareVersion(t.main.timestamp)
    && t.main.majorVersion == rules.majorVersion(t.main.coinbase.genHeight)
    && HasTag(t.main.coinbase.extra, TAG_MERGE_MINING)
    && CoinbaseChecked(t.main.coinbase)
    && (if t.version > 1 then t.side.privateKey == rules.key(t.side.privateKeySeed, t.main.previousId)
        else t.side.privateKeySeed == OldSeed(rules, t))
  }

  lemma FilledIsChecked(rules: Rules, main: Block, side: Side, version: nat)
    requires version == rules.shareVersion(main.timestamp)
      && main.majorVersion == rules.majorVersion(main.coinbase.genHeight)
    requires HasTag(main.coinbase.extra, TAG_MERGE_MINING) && CoinbaseChecked(main.coinbase)
    requires version > 1 ==> side.privateKey == ZERO32
    ensures Checked(rules, FillKeys(rules, Template(main, side, version)))
  {
  }

  lemma ReadingChecks(rules: Rules, input: Data, compact: bool)
    ensures ReadTemplate(rules, input, compact).Parsed? ==> Checked(rules, ReadTemplate(rules, input, compact).value)
  {
    var b := ReadBlock(input, compact);
    if b.Parsed? && ReadTemplate(rules, input, compact).Parsed? {
      var version := rules.shareVersion(b.value.timestamp);
      BlockChecks(input, compact);
      KeyNotWritten(b.rest);
      FilledIsChecked(rules, b.value, ReadSide(b.rest, version > 1).value, version);
    }
  }

  // ---------------------------------------------------------------- round trips

  predicate TemplateOk(rules: Rules, t: Template) {
    && BlockOk(t.main)
    && SideOk(t.side)
    && t.version == rules.shareVersion(t.main.timestamp)
    && t.main.majorVersion == rules.majorVersion(t.main.coinbase.genHeight)
    && HasTag(t.main.coinbase.extra, TAG_MERGE_MINING)
  }

  /** The block as it comes back: what the form does not carry is empty or derived. */
  function Arrived(rules: Rules, t: Template, pruned: bool, compact: bool): Template {
    FillKeys(rules, Template(MainBlock.Received(t.main, pruned, compact), Serialised(t.side, IsV2(t)), t.version))
  }

  lemma ComposeTemplate(rules: Rules, input: Data, compact: bool, r1: Data, rest: Data, main: Block, side: Side,
                        version: nat)
    requires ReadBlock(input, compact) == Parsed(main, r1) && version == rules.shareVersion(main.timestamp)
    requires ReadSide(r1, version > 1) == Parsed(side, rest)
    requires rules.majorVersion(main.coinbase.genHeight) == main.majorVersion
      && HasTag(main.coinbase.extra, TAG_MERGE_MINING)
    ensures ReadTemplate(rules, input, compact) == Parsed(FillKeys(rules, Template(main, side, version)), rest)
  {
  }

  lemma TemplateBack(rules: Rules, t: Template, pruned: bool, compact: bool, rest: Data)
    requires TemplateOk(rules, t)
    ensures ReadTemplate(rules, PutTemplate(t, pruned, compact) + rest, compact)
      == Parsed(Arrived(rules, t, pruned, compact), rest)
  {
    var body, side := PutBody(t.main, pruned, compact), PutSide(t.side, IsV2(t));
    Cat(body, side, rest);
    BlockBack(t.main, pruned, compact, side + rest);
    SideBack(t.side, IsV2(t), rest);
    ComposeTemplate(rules, PutTemplate(t, pruned, compact) + rest, compact, side + rest, rest,
                    MainBlock.Received(t.main, pruned, compact), Serialised(t.side, IsV2(t)), t.version);
  }

  /** Blocks that agree on everything written have the same encoding. */
  predicate SameFields(s: Template, t: Template) {
    && s.version == t.version
    && Serialised(s.side, IsV2(s)) == Serialised(t.side, IsV2(t))
    && s.main.(coinbase := NO_COINBASE, parentIndices := []) == t.main.(coinbase := NO_COINBASE, parentIndices := [])
    && s.main.coinbase.(outputs := [], totalReward := 0, outputsBlobSize := 0)
       == t.main.coinbase.(outputs := [], totalReward := 0, outputsBlobSize := 0)
    && OutputBytes(s.main.coinbase.outputs) == OutputBytes(t.main.coinbase.outputs)
  }

  lemma SameSideBytes(s: Side, t: Side, v2: bool)
    requires Serialised(s, v2) == Serialised(t, v2)
    ensures PutSide(s, v2) == PutSide(t, v2)
  {
    var u := Serialised(s, v2);
    assert PutSide(s, v2) == PutSide(u, v2);
    assert PutSide(t, v2) == PutSide(u, v2);
  }

  lemma SameBytes(s: Template, t: Template)
    requires SameFields(s, t)
    ensures PutTemplate(s, false, false) == PutTemplate(t, false, false)
  {
    SameSideBytes(s.side, t.side, IsV2(t));
    SameBody(s.main, t.main);
  }

  lemma SameBody(s: Block, t: Block)
    requires s.(coinbase := NO_COINBASE, parentIndices := []) == t.(coinbase := NO_COINBASE, parentIndices := [])
    requires s.coinbase.(outputs := [], totalReward := 0, outputsBlobSize := 0)
      == t.coinbase.(outputs := [], totalReward := 0, outputsBlobSize := 0)
    requires OutputBytes(s.coinbase.outputs) == OutputBytes(t.coinbase.outputs)
    ensures PutBody(s, false, false) == PutBody(t, false, false)
  {
    assert PutHeader(s) == PutHeader(t);
    var sc, tc := s.coinbase, t.coinbase;
    assert sc.extra == tc.extra && sc.extraBaseRct == tc.extraBaseRct && PutPrefix(sc) == PutPrefix(tc);
    assert PutCoinbase(sc, false) == PutCoinbase(tc, false);
    assert PutTransactions(s, false) == PutTransactions(t, false);
  }

  /** Decoding the full encoding gives a block with the same encoding, and the computed length is
      right but for sixteen bytes too many before version 2. */
  lemma FullRoundTrip(rules: Rules, t: Template, rest: Data)
    requires TemplateOk(rules, t)
    ensures var p := ReadTemplate(rules, PutTemplate(t, false, false) + rest, false);
      && p == Parsed(Arrived(rules, t, false, false), rest)
      && PutTemplate(p.value, false, false) == PutTemplate(t, false, false)
    ensures TemplateLength(t, |OutputBytes(t.main.coinbase.outputs)|) ==
      |PutTemplate(t, false, false)| + if IsV2(t) then 0 else 16
  {
    TemplateBack(rules, t, false, false, rest);
    ArrivedBytes(rules, t);
    TemplateLengthIsLength(rules, t);
  }

  lemma TemplateLengthIsLength(rules: Rules, t: Template)
    requires TemplateOk(rules, t)
    ensures TemplateLength(t, |OutputBytes(t.main.coinbase.outputs)|) ==
      |PutTemplate(t, false, false)| + if IsV2(t) then 0 else 16
  {
    BlockLengthIsLength(t.main);
    SideLengthIsLength(t.side, IsV2(t));
  }

  lemma ArrivedBytes(rules: Rules, t: Template)
    ensures PutTemplate(Arrived(rules, t, false, false), false, false) == PutTemplate(t, false, false)
  {
    ArrivedFields(rules, t);
    SameBytes(Arrived(rules, t, false, false), t);
  }

  lemma ArrivedFields(rules: Rules, t: Template)
    ensures SameFields(Arrived(rules, t, false, false), t)
  {
  }
}
