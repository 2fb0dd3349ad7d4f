/** Filling in what pruned and compact blocks leave out (p2pool/sidechain/poolblock.go): transactions
    from the chain of parents, outputs from the share window. */
module Broadcast {
  import opened Blocks
  import opened Bytes
  import opened Outputs
  import opened ExtraTags
  import opened Coinbase
  import opened MainBlock
  import opened SideData
  import opened Templates
  import opened TemplateViews
  import C = OutputCalculation
  import V = Verification

  /** `NeedsCompactTransactionFilling`. */
  predicate NeedsFilling(t: Template) {
    |t.main.parentIndices| > 0 && |t.main.parentIndices| == |t.main.transactions| && ZERO32 in t.main.transactions
  }

  // ---------------------------------------------------------------- the truth behind compact blocks

  /** The real transactions of every block. */
  type Truth = map<Bytes32, seq<Bytes32>>

  /** The i-th transaction is the real one, or left to the parent. Where there is an index, the parent
      really has the transaction there. */
  ghost predicate EntryTrue(full: Truth, t: Template, txs: seq<Bytes32>, i: nat)
    requires i < |t.main.transactions| == |txs|
  {
    var tx, p := t.main.transactions[i], t.side.parent;
    var index := IndexAt(t.main.parentIndices, i);
    && txs[i] != ZERO32
    && (tx == txs[i] || (tx == ZERO32 && index != 0))
    && (index != 0 && p in full ==> index <= |full[p]| && full[p][index - 1] == txs[i])
  }

  /** The block stands for these transactions. */
  ghost predicate Stands(full: Truth, t: Template, txs: seq<Bytes32>) {
    && |t.main.transactions| == |txs|
    && (t.main.parentIndices == [] || |t.main.parentIndices| == |txs|)
    && (forall i :: 0 <= i < |txs| ==> EntryTrue(full, t, txs, i))
  }

  predicate Complete(t: Template) { ZERO32 !in t.main.transactions }

  /** What needs no filling is complete, and complete blocks have the real transactions. */
  lemma CompleteIff(full: Truth, t: Template, txs: seq<Bytes32>)
    requires Stands(full, t, txs)
    ensures NeedsFilling(t) <==> !Complete(t)
    ensures Complete(t) ==> t.main.transactions == txs
  {
    forall i | 0 <= i < |txs| ensures t.main.transactions[i] == txs[i] || t.main.transactions[i] == ZERO32 {
      assert EntryTrue(full, t, txs, i);
    }
    if !Complete(t) {
      var i :| 0 <= i < |txs| && t.main.transactions[i] == ZERO32;
      assert EntryTrue(full, t, txs, i);
    }
  }

  // ---------------------------------------------------------------- filling one block

  /** Transactions from a parent, wherever there is an index. */
  function Filled(t: Template, parent: seq<Bytes32>): (r: seq<Bytes32>)
    ensures |r| == |t.main.transactions|
  {
    seq(|t.main.transactions|, i requires 0 <= i < |t.main.transactions| =>
      var index := IndexAt(t.main.parentIndices, i);
      if index != 0 && index <= |parent| then parent[index - 1] else t.main.transactions[i])
  }

  /** `FillTransactionsFromTransactionParentIndices`. An index right past the end panics, one beyond
      is an error; both leave the block filled up to there. A parent with another template id is
      ignored. */
  method FillFrom(t: Template, parent: Option<Template>) returns (ok: bool, r: Template)
    ensures !NeedsFilling(t) ==> ok && r == t
    ensures NeedsFilling(t) && parent.None? ==> !ok && r == t
    ensures NeedsFilling(t) && parent.Some? && TemplateTag(parent.value.main) != t.side.parent ==> ok && r == t
    ensures NeedsFilling(t) && parent.Some? && TemplateTag(parent.value.main) == t.side.parent ==>
      && r == t.(main := t.main.(transactions := r.main.transactions))
      && (ok <==> forall i :: 0 <= i < |t.main.parentIndices| ==>
        t.main.parentIndices[i] <= |parent.value.main.transactions|)
      && (ok ==> r.main.transactions == Filled(t, parent.value.main.transactions))
  {
    ok, r := true, t;
    if NeedsFilling(t) {
      if parent.None? {
        return false, t;
      }
      if TemplateTag(parent.value.main) == t.side.parent {
        var txs, source := t.main.transactions, parent.value.main.transactions;
        ghost var filled := Filled(t, source);
        for i := 0 to |txs|
          invariant |txs| == |t.main.transactions|
          invariant forall k :: 0 <= k < i ==> txs[k] == filled[k] && t.main.parentIndices[k] <= |source|
          invariant forall k :: i <= k < |txs| ==> txs[k] == t.main.transactions[k]
        {
          var parentIndex := t.main.parentIndices[i];
          if parentIndex != 0 {
            if parentIndex - 1 >= |source| {
              return false, t.(main := t.main.(transactions := txs));
            }
            txs := txs[i := source[parentIndex - 1]];
          }
        }
        assert txs == filled;
        r := t.(main := t.main.(transactions := txs));
      }
    }
  }

  /** Filling from a block that stands for the parent's transactions keeps to the truth, and fills
      everything if the parent is complete. */
  lemma FilledStands(full: Truth, t: Template, txs: seq<Bytes32>, parent: Template)
    requires Stands(full, t, txs) && t.main.parentIndices != []
    requires t.side.parent in full && Stands(full, parent, full[t.side.parent])
    ensures forall i :: 0 <= i < |t.main.parentIndices| ==> t.main.parentIndices[i] <= |parent.main.transactions|
    ensures var r := t.(main := t.main.(transactions := Filled(t, parent.main.transactions)));
      Stands(full, r, txs) && (Complete(parent) ==> Complete(r))
  {
    var p := full[t.side.parent];
    var r := t.(main := t.main.(transactions := Filled(t, parent.main.transactions)));
    forall i | 0 <= i < |txs|
      ensures IndexAt(t.main.parentIndices, i) <= |parent.main.transactions|
      ensures EntryTrue(full, r, txs, i) && (Complete(parent) ==> r.main.transactions[i] != ZERO32)
    {
      assert EntryTrue(full, t, txs, i);
      var index := IndexAt(t.main.parentIndices, i);
      if index != 0 {
        assert EntryTrue(full, parent, p, index - 1);
      }
    }
    assert forall i :: 0 <= i < |txs| ==> t.main.parentIndices[i] == IndexAt(t.main.parentIndices, i);
  }

  lemma FilledIsReal(full: Truth, t: Template, txs: seq<Bytes32>, parent: Template)
    requires Stands(full, t, txs) && NeedsFilling(t) && t.side.parent in full
      && Stands(full, parent, full[t.side.parent]) && Complete(parent)
    ensures forall i :: 0 <= i < |t.main.parentIndices| ==> t.main.parentIndices[i] <= |parent.main.transactions|
    ensures Filled(t, parent.main.transactions) == txs
  {
    FilledStands(full, t, txs, parent);
    CompleteIff(full, t.(main := t.main.(transactions := Filled(t, parent.main.transactions))), txs);
  }

  // ---------------------------------------------------------------- filling a chain

  /** Every stored block is filed under its template id and stands for its real transactions. */
  ghost predicate Faithful(full: Truth, blocks: map<Bytes32, Template>) {
    forall id :: id in blocks ==> FaithfulAt(full, blocks, id)
  }

  ghost predicate FaithfulAt(full: Truth, blocks: map<Bytes32, Template>, id: Bytes32) {
    id in blocks && id in full && TemplateTag(blocks[id].main) == id && Stands(full, blocks[id], full[id])
  }

  /** Ids are hashes, so parents cannot form a cycle. */
  ghost predicate Ranked(blocks: map<Bytes32, Template>, rank: Bytes32 -> nat) {
    forall id :: id in blocks && blocks[id].side.parent in blocks ==> rank(blocks[id].side.parent) < rank(id)
  }

  /** Following n parents at most, a complete block is found. */
  ghost predicate ReachesFull(blocks: map<Bytes32, Template>, id: Bytes32, n: nat)
    decreases n
  {
    id in blocks && (Complete(blocks[id]) || (n > 0 && ReachesFull(blocks, blocks[id].side.parent, n - 1)))
  }

  /** Only transactions change, and complete blocks stay complete. */
  ghost predicate OnlyFills(a: map<Bytes32, Template>, b: map<Bytes32, Template>) {
    a.Keys == b.Keys && forall id :: id in a ==> FillsAt(a, b, id)
  }

  ghost predicate FillsAt(a: map<Bytes32, Template>, b: map<Bytes32, Template>, id: Bytes32) {
    id in a && id in b && b[id] == a[id].(main := a[id].main.(transactions := b[id].main.transactions))
    && (Complete(a[id]) ==> Complete(b[id]))
  }

  lemma FillsTransitive(a: map<Bytes32, Template>, b: map<Bytes32, Template>, c: map<Bytes32, Template>)
    requires OnlyFills(a, b) && OnlyFills(b, c)
    ensures OnlyFills(a, c)
  {
    forall id | id in a ensures FillsAt(a, c, id) {
      assert FillsAt(a, b, id) && FillsAt(b, c, id);
    }
  }

  lemma {:induction false} StillReaches(a: map<Bytes32, Template>, b: map<Bytes32, Template>, id: Bytes32, n: nat)
    requires OnlyFills(a, b) && ReachesFull(a, id, n)
    ensures ReachesFull(b, id, n)
    decreases n
  {
    assert FillsAt(a, b, id);
    if !Complete(a[id]) {
      StillReaches(a, b, a[id].side.parent, n - 1);
    }
  }

  lemma StillRanked(a: map<Bytes32, Template>, b: map<Bytes32, Template>, rank: Bytes32 -> nat)
    requires OnlyFills(a, b) && Ranked(a, rank)
    ensures Ranked(b, rank)
  {
    forall id | id in b && b[id].side.parent in b ensures rank(b[id].side.parent) < rank(id) {
      assert FillsAt(a, b, id);
    }
  }

  /** Each block of the chain is the parent of the one before. */
  ghost predicate ParentChain(blocks: map<Bytes32, Template>, chain: seq<Bytes32>) {
    && (forall k :: 0 <= k < |chain| ==> chain[k] in blocks)
    && (forall k :: 0 <= k < |chain| - 1 ==> ParentOf(blocks, chain[k], chain[k + 1]))
  }

  ghost predicate ParentOf(blocks: map<Bytes32, Template>, child: Bytes32, parent: Bytes32) {
    child in blocks && blocks[child].side.parent == parent
  }

  lemma StillChain(a: map<Bytes32, Template>, b: map<Bytes32, Template>, chain: seq<Bytes32>)
    requires OnlyFills(a, b) && ParentChain(a, chain)
    ensures ParentChain(b, chain)
  {
    forall k | 0 <= k < |chain| - 1 ensures ParentOf(b, chain[k], chain[k + 1]) {
      assert ParentOf(a, chain[k], chain[k + 1]) && FillsAt(a, b, chain[k]);
    }
  }

  /** One block of the pool, filled from its parent there. */
  lemma StoreFilled(full: Truth, blocks: map<Bytes32, Template>, child: Bytes32, parent: Bytes32, r: Template)
    requires Faithful(full, blocks) && child in blocks && parent in blocks && blocks[child].side.parent == parent
    requires if NeedsFilling(blocks[child])
      then var txs := Filled(blocks[child], blocks[parent].main.transactions);
        r == blocks[child].(main := blocks[child].main.(transactions := txs))
      else r == blocks[child]
    ensures Faithful(full, blocks[child := r]) && OnlyFills(blocks, blocks[child := r])
    ensures Complete(blocks[parent]) || Complete(blocks[child]) ==> Complete(r)
  {
    var t := blocks[child];
    assert FaithfulAt(full, blocks, child) && FaithfulAt(full, blocks, parent);
    CompleteIff(full, t, full[child]);
    if NeedsFilling(t) {
      FilledStands(full, t, full[child], blocks[parent]);
    }
    var blocks' := blocks[child := r];
    assert TemplateTag(r.main) == TemplateTag(t.main);
    forall id | id in blocks' ensures FaithfulAt(full, blocks', id) {
      assert id != child ==> FaithfulAt(full, blocks, id);
    }
    assert blocks'.Keys == blocks.Keys;
  }

  lemma FillsNothing(a: map<Bytes32, Template>)
    ensures OnlyFills(a, a)
  {
    assert forall id :: id in a ==> FillsAt(a, a, id);
  }

  /** The invariant of the walk down the parents: `goal` says whether a complete block is there to be
      found. */
  ghost predicate Walking(full: Truth, rank: Bytes32 -> nat, a: map<Bytes32, Template>, b: map<Bytes32, Template>,
                          h: Bytes32, chain: seq<Bytes32>, cur: Bytes32, found: bool, goal: bool, m: nat) {
    && Faithful(full, b)
    && OnlyFills(a, b)
    && Ranked(b, rank)
    && ParentChain(b, chain)
    && (if chain == [] then cur == h && !found
        else chain[0] == h && (!found ==> ParentOf(b, chain[|chain| - 1], cur)))
    && (goal ==> if found then chain != [] && Complete(b[chain[|chain| - 1]]) else ReachesFull(b, cur, m))
  }

  lemma ChainGrows(b: map<Bytes32, Template>, chain: seq<Bytes32>, cur: Bytes32)
    requires ParentChain(b, chain) && cur in b && (chain != [] ==> ParentOf(b, chain[|chain| - 1], cur))
    ensures ParentChain(b, chain + [cur])
  {
    var c := chain + [cur];
    forall k | 0 <= k < |c| - 1 ensures ParentOf(b, c[k], c[k + 1]) {
      assert k < |chain| - 1 ==> ParentOf(b, chain[k], chain[k + 1]);
    }
  }

  lemma WalkFound(full: Truth, rank: Bytes32 -> nat, a: map<Bytes32, Template>, b: map<Bytes32, Template>,
                  h: Bytes32, chain: seq<Bytes32>, cur: Bytes32, goal: bool, m: nat)
    requires Walking(full, rank, a, b, h, chain, cur, false, goal, m) && cur in b && Complete(b[cur])
    ensures Walking(full, rank, a, b, h, chain + [cur], cur, true, goal, m)
  {
    ChainGrows(b, chain, cur);
  }

  lemma WalkOn(full: Truth, rank: Bytes32 -> nat, a: map<Bytes32, Template>, b: map<Bytes32, Template>,
               h: Bytes32, chain: seq<Bytes32>, cur: Bytes32, goal: bool, m: nat) returns (m': nat)
    requires Walking(full, rank, a, b, h, chain, cur, false, goal, m) && cur in b && !Complete(b[cur])
    ensures Walking(full, rank, a, b, h, chain + [cur], b[cur].side.parent, false, goal, m')
  {
    ChainGrows(b, chain, cur);
    assert ParentOf(b, cur, b[cur].side.parent);
    m' := if m > 0 then m - 1 else 0;
  }

  lemma WalkFilled(full: Truth, rank: Bytes32 -> nat, a: map<Bytes32, Template>, b: map<Bytes32, Template>,
                   c: map<Bytes32, Template>, h: Bytes32, chain: seq<Bytes32>, cur: Bytes32, goal: bool, m: nat)
    requires Walking(full, rank, a, b, h, chain, cur, false, goal, m) && chain != []
    requires OnlyFills(b, c) && Faithful(full, c)
    ensures Walking(full, rank, a, c, h, chain, cur, false, goal, m)
  {
    FillsTransitive(a, b, c);
    StillRanked(b, c, rank);
    StillChain(b, c, chain);
    assert ParentOf(b, chain[|chain| - 1], cur) && FillsAt(b, c, chain[|chain| - 1]);
    if goal {
      StillReaches(b, c, cur, m);
    }
  }

  // ---------------------------------------------------------------- indexes into the parent

  /** `slices.Index`, plus one, so that 0 says that there is none. */
  function IndexIn(s: seq<Bytes32>, x: Bytes32): (r: nat)
    ensures if r == 0 then x !in s else r <= |s| && s[r - 1] == x && x !in s[..r - 1]
  {
    if s == [] then 0
    else if s[0] == x then 1
    else
      var r := IndexIn(s[1..], x);
      assert r > 0 ==> s[..r] == [s[0]] + s[1..][..r - 1];
      if r == 0 then 0 else r + 1
  }

  /** `FillTransactionParentIndices`: the position of every transaction in the parent, if it is there. */
  method FillParentIndices(t: Template, parent: Option<Template>) returns (ok: bool, r: Template)
    ensures r == t.(main := t.main.(parentIndices := r.main.parentIndices))
    ensures |t.main.parentIndices| == |t.main.transactions| ==> ok && r == t
    ensures |t.main.parentIndices| != |t.main.transactions| ==>
      ok == (parent.Some? && TemplateTag(parent.value.main) == t.side.parent) && (!ok ==> r == t)
    ensures |t.main.parentIndices| != |t.main.transactions| && ok ==>
      && |r.main.parentIndices| == |t.main.transactions|
      && forall i :: 0 <= i < |t.main.transactions| ==>
           r.main.parentIndices[i] == IndexIn(parent.value.main.transactions, t.main.transactions[i])
  {
    ok, r := true, t;
    if |t.main.transactions| != |t.main.parentIndices| {
      if parent.None? || TemplateTag(parent.value.main) != t.side.parent {
        return false, t;
      }
      var indices: seq<nat> := [];
      for i := 0 to |t.main.transactions|
        invariant |indices| == i
        invariant forall k :: 0 <= k < i ==>
          indices[k] == IndexIn(parent.value.main.transactions, t.main.transactions[k])
      {
        indices := indices + [IndexIn(parent.value.main.transactions, t.main.transactions[i])];
      }
      r := t.(main := t.main.(parentIndices := indices));
    }
  }

  /** A full block whose indexes are right. */
  ghost predicate Sendable(full: Truth, t: Template) {
    && Complete(t)
    && (forall i :: 0 <= i < |t.main.transactions| ==> IndexTrue(full, t, i))
  }

  ghost predicate IndexTrue(full: Truth, t: Template, i: nat)
    requires i < |t.main.transactions|
  {
    var index, p := IndexAt(t.main.parentIndices, i), t.side.parent;
    index != 0 ==> p in full && index <= |full[p]| && full[p][index - 1] == t.main.transactions[i]
  }

  /** What arrives stands for the transactions that were sent. */
  lemma ArrivedStands(rules: Rules, full: Truth, t: Template, pruned: bool, compact: bool)
    requires Sendable(full, t)
    ensures Stands(full, Arrived(rules, t, pruned, compact), t.main.transactions)
  {
    var r, txs := Arrived(rules, t, pruned, compact), t.main.transactions;
    forall i | 0 <= i < |txs| ensures EntryTrue(full, r, txs, i) {
      assert IndexTrue(full, t, i) && txs[i] in txs;
    }
  }

  /** With the transactions and outputs back, everything that is written is as it was. */
  lemma RecoveredFields(rules: Rules, t: Template, pruned: bool, compact: bool, r: Template)
    requires var a := Arrived(rules, t, pruned, compact);
      r == a.(main := a.main.(transactions := t.main.transactions, parentIndices := r.main.parentIndices,
                              coinbase := a.main.coinbase.(outputs := r.main.coinbase.outputs)))
    requires OutputBytes(r.main.coinbase.outputs) == OutputBytes(t.main.coinbase.outputs)
    ensures SameFields(r, t)
  {
  }

  /** What the receiver calculates outputs with: its parameters, its store, and the object that the
      block is read into. */
  datatype Receiver = Receiver(rules: Rules, env: V.Env, store: Store, identity: Identity)

  /** What was sent, as a ghost of the receiving methods: the block, the object the sender has for it,
      and the form it was sent in. */
  datatype Sent = Sent(block: Template, identity: Identity, pruned: bool, compact: bool)

  /** All it takes to undo the pruned and compact forms: true indexes that lead to a full block, and a
      payout that the receiver would accept. */
  ghost predicate Recoverable(to: Receiver, blocks: map<Bytes32, Template>, full: Truth, n: nat, sent: Sent) {
    var t := sent.block;
    && Sendable(full, t)
    && t.main.coinbase.outputs != []
    && (sent.compact && (exists i :: 0 <= i < |t.main.transactions| && IndexAt(t.main.parentIndices, i) != 0) ==>
          ReachesFull(blocks, t.side.parent, n))
    && (sent.pruned ==> Payable(to.rules, to.env, to.store, t, sent.identity) && Uncached(to.store, to.identity.addr))
  }

  /** Filling is needed only where the compact form used an index. */
  lemma ArrivedNeeds(rules: Rules, t: Template, pruned: bool, compact: bool)
    requires Complete(t) && NeedsFilling(Arrived(rules, t, pruned, compact))
    ensures compact && exists i :: 0 <= i < |t.main.transactions| && IndexAt(t.main.parentIndices, i) != 0
  {
    var r := Arrived(rules, t, pruned, compact);
    var i :| 0 <= i < |r.main.transactions| && r.main.transactions[i] == ZERO32;
    assert IndexAt(t.main.parentIndices, i) != 0;
  }

  function ArrivedFrom(rules: Rules, sent: Sent): Template { Arrived(rules, sent.block, sent.pruned, sent.compact) }

  /** The input is an encoding of the block in the form it was sent in. */
  ghost predicate Encodes(rules: Rules, input: Data, sent: Sent) {
    TemplateOk(rules, sent.block) && input == PutTemplate(sent.block, sent.pruned, sent.compact)
  }

  lemma Decodes(rules: Rules, input: Data, sent: Sent)
    requires Encodes(rules, input, sent)
    ensures ReadTemplate(rules, input, sent.compact) == Parsed(ArrivedFrom(rules, sent), [])
  {
    TemplateBack(rules, sent.block, sent.pruned, sent.compact, []);
    assert input + [] == input;
  }

  /** With the transactions filled in, calculating the outputs completes what arrived. */
  lemma OutputsAreBack(to: Receiver, sent: Sent, b: Template, r: Option<Template>)
    requires sent.pruned ==>
      Payable(to.rules, to.env, to.store, sent.block, sent.identity) && Uncached(to.store, to.identity.addr)
    requires var a := ArrivedFrom(to.rules, sent);
      b == a.(main := a.main.(transactions := sent.block.main.transactions, parentIndices := b.main.parentIndices))
    requires sent.block.main.coinbase.outputs != []
    requires b.main.coinbase.outputs != [] ==> r == Some(b)
    requires b.main.coinbase.outputs == [] ==>
      var c := Calculated(to.env, to.store, b, to.identity);
      && (r.Some? <==> c.Some? && |OutputBytes(c.value)| == b.main.coinbase.outputsBlobSize)
      && (r.Some? ==> r.value == b.(main := b.main.(coinbase := b.main.coinbase.(outputs := c.value))))
    ensures r.Some? && SameFields(r.value, sent.block)
    ensures PutTemplate(r.value, false, false) == PutTemplate(sent.block, false, false)
  {
    if sent.pruned {
      ArrivedIsCalculated(to.rules, to.env, to.store, sent.block, sent.compact, b, sent.identity, to.identity);
    }
    RecoveredFields(to.rules, sent.block, sent.pruned, sent.compact, r.value);
    SameBytes(r.value, sent.block);
  }

  /** The stored blocks, changed in place. */
  class BlockPool {
    var blocks: map<Bytes32, Template>

    /** Fills one stored block from another. */
    method FillStored(child: Bytes32, parent: Bytes32, ghost full: Truth) returns (ok: bool)
      requires Faithful(full, blocks) && child in blocks && parent in blocks && blocks[child].side.parent == parent
      modifies this
      ensures ok && Faithful(full, blocks) && OnlyFills(old(blocks), blocks)
      ensures child in blocks && blocks == old(blocks)[child := blocks[child]]
      ensures old(Complete(blocks[parent]) || Complete(blocks[child])) ==> Complete(blocks[child])
    {
      assert FaithfulAt(full, blocks, parent) && FaithfulAt(full, blocks, child);
      var r;
      ok, r := FillFrom(blocks[child], Some(blocks[parent]));
      if NeedsFilling(blocks[child]) {
        FilledStands(full, blocks[child], full[child], blocks[parent]);
      }
      StoreFilled(full, blocks, child, parent, r);
      blocks := blocks[child := r];
    }

    /** Walks down until a block needs no filling, or could be filled from a block that itself does. */
    method CollectChain(h: Bytes32, ghost full: Truth, ghost rank: Bytes32 -> nat, ghost n: nat)
      returns (chain: seq<Bytes32>)
      requires Faithful(full, blocks) && Ranked(blocks, rank)
      modifies this
      ensures Faithful(full, blocks) && OnlyFills(old(blocks), blocks) && ParentChain(blocks, chain)
      ensures if h in blocks then chain != [] && chain[0] == h else chain == []
      ensures ReachesFull(old(blocks), h, n) ==> chain != [] && Complete(blocks[chain[|chain| - 1]])
    {
      ghost var blocks0, m, goal := blocks, n, ReachesFull(blocks, h, n);
      var cur, found := h, false;
      chain := [];
      FillsNothing(blocks);
      while !found && cur in blocks
        invariant Walking(full, rank, blocks0, blocks, h, chain, cur, found, goal, m)
        decreases !found, if cur in blocks then rank(cur) + 1 else 0
      {
        chain, cur, found, m := WalkOne(h, chain, cur, full, rank, blocks0, goal, m);
      }
    }

    /** One round of the walk. */
    method WalkOne(h: Bytes32, chain: seq<Bytes32>, cur: Bytes32, ghost full: Truth, ghost rank: Bytes32 -> nat,
                   ghost blocks0: map<Bytes32, Template>, ghost goal: bool, ghost m: nat)
      returns (chain': seq<Bytes32>, cur': Bytes32, found: bool, ghost m': nat)
      requires cur in blocks && Walking(full, rank, blocks0, blocks, h, chain, cur, false, goal, m)
      modifies this
      ensures Walking(full, rank, blocks0, blocks, h, chain', cur', found, goal, m')
      ensures found || cur' !in blocks || rank(cur') < rank(cur)
    {
      assert FaithfulAt(full, blocks, cur);
      CompleteIff(full, blocks[cur], full[cur]);
      if !NeedsFilling(blocks[cur]) {
        WalkFound(full, rank, blocks0, blocks, h, chain, cur, goal, m);
        return chain + [cur], cur, true, m;
      }
      if chain != [] {
        found := TryFillLast(h, chain, cur, full, rank, blocks0, goal, m);
        // a parent with gaps of its own may still have all that the block lacks
        if found {
          return chain, cur, true, m;
        }
      }
      m' := WalkOn(full, rank, blocks0, blocks, h, chain, cur, goal, m);
      return chain + [cur], blocks[cur].side.parent, false, m';
    }

    /** Fills the last block of the chain from a parent that is not complete itself. */
    method TryFillLast(h: Bytes32, chain: seq<Bytes32>, cur: Bytes32, ghost full: Truth, ghost rank: Bytes32 -> nat,
                       ghost blocks0: map<Bytes32, Template>, ghost goal: bool, ghost m: nat) returns (complete: bool)
      requires cur in blocks && Walking(full, rank, blocks0, blocks, h, chain, cur, false, goal, m) && chain != []
      modifies this
      ensures Walking(full, rank, blocks0, blocks, h, chain, cur, false, goal, m)
      ensures complete == Complete(blocks[chain[|chain| - 1]]) && cur in blocks && blocks[cur] == old(blocks)[cur]
    {
      var last := chain[|chain| - 1];
      assert ParentOf(blocks, last, cur);
      ghost var before := blocks;
      var ok := FillStored(last, cur, full);
      WalkFilled(full, rank, blocks0, before, blocks, h, chain, cur, goal, m);
      assert FaithfulAt(full, blocks, last);
      CompleteIff(full, blocks[last], full[last]);
      complete := ok && !NeedsFilling(blocks[last]);
    }

    /** `getTemplateByIdFillingTx`: the block, filled from its chain of parents. */
    method FillingTx(h: Bytes32, ghost full: Truth, ghost rank: Bytes32 -> nat, ghost n: nat)
      returns (r: Option<Template>)
      requires Faithful(full, blocks) && Ranked(blocks, rank)
      modifies this
      ensures Faithful(full, blocks) && OnlyFills(old(blocks), blocks)
      ensures r == if h in blocks then Some(blocks[h]) else None
      ensures ReachesFull(old(blocks), h, n) ==> r.Some? && Complete(r.value) && r.value.main.transactions == full[h]
    {
      var chain := CollectChain(h, full, rank, n);
      if chain == [] {
        return None;
      }
      FillDown(chain, full, old(blocks));
      r := Some(blocks[h]);
      assert FaithfulAt(full, blocks, h);
      CompleteIff(full, blocks[h], full[h]);
    }

    /** From the last block of a chain up to the first, each is filled from the next. */
    method FillDown(chain: seq<Bytes32>, ghost full: Truth, ghost blocks0: map<Bytes32, Template>)
      requires Faithful(full, blocks) && OnlyFills(blocks0, blocks) && ParentChain(blocks, chain) && chain != []
      modifies this
      ensures Faithful(full, blocks) && OnlyFills(blocks0, blocks) && ParentChain(blocks, chain)
      ensures old(Complete(blocks[chain[|chain| - 1]])) ==> Complete(blocks[chain[0]])
    {
      ghost var goal := Complete(blocks[chain[|chain| - 1]]);
      var i := |chain| - 1;
      while i > 0
        invariant 0 <= i < |chain| && Faithful(full, blocks) && OnlyFills(blocks0, blocks) && ParentChain(blocks, chain)
        invariant goal ==> Complete(blocks[chain[i]])
      {
        i := i - 1;
        ghost var before := blocks;
        assert ParentOf(blocks, chain[i], chain[i + 1]);
        var _ := FillStored(chain[i], chain[i + 1], full);
        FillsTransitive(blocks0, before, blocks);
        StillChain(before, blocks, chain);
      }
    }

    /** The transactions of a block that needs them, from its parent. */
    method FillTransactions(t: Template, ghost full: Truth, ghost rank: Bytes32 -> nat, ghost n: nat,
                            ghost txs: seq<Bytes32>)
      returns (r: Option<Template>, parent: Option<Template>)
      requires Faithful(full, blocks) && Ranked(blocks, rank)
      modifies this
      ensures Faithful(full, blocks) && OnlyFills(old(blocks), blocks)
      ensures r.Some? ==> r.value == t.(main := t.main.(transactions := r.value.main.transactions))
      ensures Stands(full, t, txs) && (NeedsFilling(t) ==> ReachesFull(old(blocks), t.side.parent, n)) ==>
        r.Some? && r.value.main.transactions == txs
    {
      parent := None;
      ghost var right := Stands(full, t, txs) && (NeedsFilling(t) ==> ReachesFull(blocks, t.side.parent, n));
      if right {
        CompleteIff(full, t, txs);
      }
      if !NeedsFilling(t) {
        FillsNothing(blocks);
        return Some(t), None;
      }
      parent := FillingTx(t.side.parent, full, rank, n);
      if parent.None? {
        return None, None;
      }
      assert FaithfulAt(full, blocks, t.side.parent);
      var ok, filled := FillFrom(t, parent);
      if right {
        FilledIsReal(full, t, txs, parent.value);
      }
      r := if ok then Some(filled) else None;
    }

    /** The outputs of a pruned block are calculated and must have the announced length. */
    static method FillOutputs(t: Template, to: Receiver) returns (r: Option<Template>)
      ensures t.main.coinbase.outputs != [] ==> r == Some(t)
      ensures t.main.coinbase.outputs == [] ==>
        var c := Calculated(to.env, to.store, t, to.identity);
        && (r.Some? <==> c.Some? && |OutputBytes(c.value)| == t.main.coinbase.outputsBlobSize)
        && (r.Some? ==> r.value == t.(main := t.main.(coinbase := t.main.coinbase.(outputs := c.value))))
    {
      if t.main.coinbase.outputs != [] {
        return Some(t);
      }
      var outputs := C.CalculateOutputs(to.env, to.store, BlockOf(t, to.identity), Tagged(t));
      if outputs.None? {
        return None;
      }
      var written := TxOutputsOf(outputs.value);
      var blob := AppendOutputs([], written);
      if |blob.value| != t.main.coinbase.outputsBlobSize {
        return None;
      }
      return Some(t.(main := t.main.(coinbase := t.main.coinbase.(outputs := written))));
    }

    /** `PreProcessBlock`. If what arrived was sent by someone who knew the real transactions, if the
        chain of parents reaches a full block, and if the payout is right on this store, the block has
        its full encoding back. */
    method PreProcess(t: Template, to: Receiver, ghost full: Truth, ghost rank: Bytes32 -> nat, ghost n: nat,
                      ghost sent: Sent)
      returns (r: Option<Template>)
      requires Faithful(full, blocks) && Ranked(blocks, rank)
      modifies this
      ensures Faithful(full, blocks) && OnlyFills(old(blocks), blocks)
      ensures t == ArrivedFrom(to.rules, sent) && Recoverable(to, old(blocks), full, n, sent) ==>
        && r.Some?
        && SameFields(r.value, sent.block)
        && PutTemplate(r.value, false, false) == PutTemplate(sent.block, false, false)
    {
      ghost var right := t == ArrivedFrom(to.rules, sent) && Recoverable(to, blocks, full, n, sent);
      if right {
        ArrivedStands(to.rules, full, sent.block, sent.pruned, sent.compact);
        if NeedsFilling(t) {
          ArrivedNeeds(to.rules, sent.block, sent.pruned, sent.compact);
        }
      }
      var parent;
      r, parent := FillTransactions(t, full, rank, n, sent.block.main.transactions);
      if r.None? {
        return;
      }
      var b := r.value;
      if |b.main.transactions| != |b.main.parentIndices| {
        b := IndexTransactions(b, parent, full, rank, old(blocks));
      }
      r := FillOutputs(b, to);
      if right {
        OutputsAreBack(to, sent, b, r);
      }
    }

    /** Looks up the transactions in the parent, if there is one. */
    method IndexTransactions(t: Template, parent: Option<Template>, ghost full: Truth, ghost rank: Bytes32 -> nat,
                             ghost blocks0: map<Bytes32, Template>) returns (r: Template)
      requires Faithful(full, blocks) && OnlyFills(blocks0, blocks) && Ranked(blocks0, rank)
      modifies this
      ensures Faithful(full, blocks) && OnlyFills(blocks0, blocks)
      ensures r == t.(main := t.main.(parentIndices := r.main.parentIndices))
    {
      var p := parent;
      if p.None? {
        ghost var before := blocks;
        StillRanked(blocks0, blocks, rank);
        p := FillingTx(t.side.parent, full, rank, 0);
        FillsTransitive(blocks0, before, blocks);
      }
      var _, r' := FillParentIndices(t, p);
      r := r';
    }

    /** A block from the network: decoded, then filled in. */
    method Receive(input: Data, compact: bool, to: Receiver, ghost full: Truth, ghost rank: Bytes32 -> nat,
                   ghost n: nat, ghost sent: Sent)
      returns (r: Option<Template>)
      requires Faithful(full, blocks) && Ranked(blocks, rank)
      modifies this
      ensures Faithful(full, blocks) && OnlyFills(old(blocks), blocks)
      ensures (Encodes(to.rules, input, sent) && sent.compact == compact
               && Recoverable(to, old(blocks), full, n, sent)) ==>
        r.Some? && PutTemplate(r.value, false, false) == PutTemplate(sent.block, false, false)
    {
      var t := ReadTemplate(to.rules, input, compact);
      if Encodes(to.rules, input, sent) && sent.compact == compact {
        Decodes(to.rules, input, sent);
      }
      if t.Failed? {
        FillsNothing(blocks);
        return None;
      }
      r := PreProcess(t.value, to, full, rank, n, sent);
    }
  }
}
