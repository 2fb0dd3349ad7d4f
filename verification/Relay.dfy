/** A block on its way from one node to another: the sender looks up its transactions in the parent and
    picks a form for the peer (p2pool/p2p/server.go, Broadcast), the receiver rebuilds the block. */
module Relay {
  import opened Blocks
  import opened Bytes
  import opened Outputs
  import opened MainBlock
  import opened Templates
  import opened TemplateViews
  import opened Broadcast

  /** What the peer and this node support, and whether the peer has announced parent and uncles. */
  datatype Features = Features(
    knowsRelatives: bool,
    peerCompact: bool,
    peerPruned: bool,
    ownCompact: bool,
    ownPruned: bool)

  predicate MayCompact(f: Features) { f.knowsRelatives && f.peerCompact && f.ownCompact }

  predicate MayPrune(f: Features) {
    f.knowsRelatives && ((f.peerCompact && (f.ownCompact || f.ownPruned)) || (f.peerPruned && f.ownPruned))
  }

  /** The bytes after the length, and the kind of message: compact or not. */
  datatype Message = Message(payload: Data, compact: bool)

  const LENGTH_FIELD: Data := [0, 0, 0, 0]

  predicate Fits(t: Template, pruned: bool, compact: bool) {
    Supported(t.main) && 4 + |PutTemplate(t, pruned, compact)| <= MAX_TEMPLATE_SIZE
  }

  function Form(t: Template, pruned: bool, compact: bool): Message { Message(PutTemplate(t, pruned, compact), compact) }

  /** One form behind room for the length. */
  method Encode(t: Template, pruned: bool, compact: bool) returns (m: Option<Message>)
    requires forall i :: 0 <= i < |t.main.coinbase.extra| ==> t.main.coinbase.extra[i].varInt < MAX64
    ensures m.Some? ==> m.value.compact == compact
    ensures pruned || AllKnown(t.main.coinbase.outputs) ==>
      m == if Fits(t, pruned, compact) then Some(Form(t, pruned, compact)) else None
  {
    var data := AppendTemplate(LENGTH_FIELD, t, pruned, compact);
    if data.None? {
      return None;
    }
    m := Some(Message(if |data.value| < 4 then [] else data.value[4..], compact));
  }

  /** The message for a peer. A compact form that saves nothing is replaced by the pruned one. */
  method Choose(full: Message, short: Message, compact: Message, features: Features)
    returns (m: Message, ghost pruned: bool)
    requires !full.compact && !short.compact && compact.compact
    ensures pruned == MayPrune(features)
    ensures m == if MayCompact(features) && |compact.payload| < |short.payload| then compact
                 else if MayPrune(features) then short else full
  {
    var second, third := short, if |compact.payload| >= |short.payload| then short else compact;
    if !features.ownPruned {
      second := full;
    }
    if !features.ownCompact {
      third := second;
    }
    if features.knowsRelatives && features.peerCompact {
      return third, features.ownCompact || features.ownPruned;
    }
    if features.knowsRelatives && features.peerPruned {
      return second, features.ownPruned;
    }
    return full, false;
  }

  /** `Broadcast`, for one peer. A block that one of the forms fails for panics. */
  method MessageFor(t: Template, features: Features) returns (m: Option<Message>, ghost pruned: bool)
    requires forall i :: 0 <= i < |t.main.coinbase.extra| ==> t.main.coinbase.extra[i].varInt < MAX64
    ensures AllKnown(t.main.coinbase.outputs) ==>
      && (m.Some? <==> Fits(t, false, false) && Fits(t, true, false) && Fits(t, true, true))
      && (m.Some? ==> m.value == Form(t, pruned, m.value.compact))
    ensures m.Some? ==> (m.value.compact ==> MayCompact(features)) && (pruned ==> MayPrune(features))
  {
    pruned := false;
    var full := Encode(t, false, false);
    var short := Encode(t, true, false);
    var compact := Encode(t, true, true);
    if full.None? || short.None? || compact.None? {
      return None, false;
    }
    var chosen, p := Choose(full.value, short.value, compact.value, features);
    return Some(chosen), p;
  }

  // ---------------------------------------------------------------- from sender to receiver

  /** A complete block without indexes yet, and the truth about the parent they are looked up in. */
  ghost predicate Honest(full: Truth, t: Template, parent: Option<Template>) {
    && Complete(t)
    && t.main.parentIndices == []
    && (parent.Some? && TemplateTag(parent.value.main) == t.side.parent ==>
          t.side.parent in full && parent.value.main.transactions == full[t.side.parent]
            && |full[t.side.parent]| < MAX64)
  }

  /** What looking up the indexes gives. */
  ghost predicate LookedUp(t: Template, parent: Option<Template>, r: Template) {
    && r == t.(main := t.main.(parentIndices := r.main.parentIndices))
    && (r.main.parentIndices != [] ==>
          && parent.Some?
          && TemplateTag(parent.value.main) == t.side.parent
          && |r.main.parentIndices| == |t.main.transactions|
          && forall i :: 0 <= i < |t.main.transactions| ==>
               r.main.parentIndices[i] == IndexIn(parent.value.main.transactions, t.main.transactions[i]))
  }

  /** Indexes that were just looked up are true, and leave the block as well-formed as it was. */
  lemma LookedUpIsSendable(rules: Rules, full: Truth, t: Template, parent: Option<Template>, r: Template)
    requires Honest(full, t, parent) && LookedUp(t, parent, r)
    ensures Sendable(full, r) && (TemplateOk(rules, t) ==> TemplateOk(rules, r))
    ensures PutTemplate(r, false, false) == PutTemplate(t, false, false)
  {
    forall i | 0 <= i < |r.main.transactions| ensures IndexTrue(full, r, i) {
    }
    SameBytes(r, t);
  }

  /** All it takes to get a block across: the sender is honest; if pruned forms may be sent, the payout is
      right; and if compact ones may, the receiver's chain of parents reaches a full block. */
  ghost predicate Deliverable(to: Receiver, blocks: map<Bytes32, Template>, full: Truth, n: nat, t: Template,
                              identity: Identity, parent: Option<Template>, features: Features) {
    && TemplateOk(to.rules, t)
    && Honest(full, t, parent)
    && (MayCompact(features) ==> ReachesFull(blocks, t.side.parent, n))
    && (MayPrune(features) ==> Payable(to.rules, to.env, to.store, t, identity) && Uncached(to.store, to.identity.addr))
  }

  lemma StillPayable(rules: Rules, to: Receiver, t: Template, identity: Identity, r: Template)
    requires Payable(rules, to.env, to.store, t, identity)
      && r == t.(main := t.main.(parentIndices := r.main.parentIndices))
    ensures Payable(rules, to.env, to.store, r, identity)
  {
    assert BlockOf(r, identity) == BlockOf(t, identity);
  }

  lemma DeliverableIsRecoverable(to: Receiver, blocks: map<Bytes32, Template>, full: Truth, n: nat, t: Template,
                                 identity: Identity, parent: Option<Template>, features: Features, r: Template,
                                 pruned: bool, compact: bool)
    requires Deliverable(to, blocks, full, n, t, identity, parent, features) && LookedUp(t, parent, r)
    requires (pruned ==> MayPrune(features)) && (compact ==> MayCompact(features))
    ensures TemplateOk(to.rules, r) && Recoverable(to, blocks, full, n, Sent(r, identity, pruned, compact))
    ensures PutTemplate(r, false, false) == PutTemplate(t, false, false)
  {
    LookedUpIsSendable(to.rules, full, t, parent, r);
    if pruned {
      StillPayable(to.rules, to, t, identity, r);
    }
  }

  /** What is sent of a deliverable block encodes something recoverable. */
  lemma DeliverableIsEncoded(to: Receiver, blocks: map<Bytes32, Template>, full: Truth, n: nat, t: Template,
                             identity: Identity, parent: Option<Template>, features: Features, r: Template,
                             pruned: bool, m: Message)
    requires Deliverable(to, blocks, full, n, t, identity, parent, features) && LookedUp(t, parent, r)
    requires (pruned ==> MayPrune(features)) && (m.compact ==> MayCompact(features))
    requires AllKnown(t.main.coinbase.outputs) ==> m == Form(r, pruned, m.compact)
    ensures var sent := Sent(r, identity, pruned, m.compact);
      Encodes(to.rules, m.payload, sent) && Recoverable(to, blocks, full, n, sent)
    ensures PutTemplate(r, false, false) == PutTemplate(t, false, false)
  {
    DeliverableIsRecoverable(to, blocks, full, n, t, identity, parent, features, r, pruned, m.compact);
    OkIsKnown(t.main.coinbase.outputs);
  }

  /** `fillPoolBlockTransactionParentIndices`; without a parent the block stays as it is. */
  method Prepare(t: Template, parent: Option<Template>) returns (r: Template)
    ensures r == t.(main := t.main.(parentIndices := r.main.parentIndices))
    ensures t.main.parentIndices == [] ==> LookedUp(t, parent, r)
  {
    var _, filled := FillParentIndices(t, parent);
    r := filled;
  }

  /** Whatever form is chosen for the peer, a deliverable block arrives with the full encoding it had. */
  method Deliver(t: Template, parent: Option<Template>, features: Features, pool: BlockPool, to: Receiver,
                 ghost full: Truth, ghost rank: Bytes32 -> nat, ghost n: nat, ghost identity: Identity)
    returns (sent: Template, m: Option<Message>, r: Option<Template>)
    requires forall i :: 0 <= i < |t.main.coinbase.extra| ==> t.main.coinbase.extra[i].varInt < MAX64
    requires Faithful(full, pool.blocks) && Ranked(pool.blocks, rank)
    modifies pool
    ensures Faithful(full, pool.blocks) && OnlyFills(old(pool.blocks), pool.blocks)
    ensures t.main.parentIndices == [] ==> LookedUp(t, parent, sent)
    ensures AllKnown(t.main.coinbase.outputs) ==>
      (m.Some? <==> Fits(sent, false, false) && Fits(sent, true, false) && Fits(sent, true, true))
    ensures Deliverable(to, old(pool.blocks), full, n, t, identity, parent, features) && m.Some? ==>
      r.Some? && PutTemplate(r.value, false, false) == PutTemplate(t, false, false)
  {
    sent := Prepare(t, parent);
    ghost var pruned;
    m, pruned := MessageFor(sent, features);
    r := None;
    if m.None? {
      FillsNothing(pool.blocks);
      return;
    }
    if Deliverable(to, pool.blocks, full, n, t, identity, parent, features) {
      DeliverableIsEncoded(to, pool.blocks, full, n, t, identity, parent, features, sent, pruned, m.value);
    }
    r := pool.Receive(m.value.payload, m.value.compact, to, full, rank, n,
                      Sent(sent, identity, pruned, m.value.compact));
  }
}
