# A verified model of the P2Pool side chain

P2Pool is a decentralised Monero mining pool. Its side chain is a graph of shares: every block names a
parent and up to a few uncles, blocks arrive from peers in any order, and each node verifies, scores
and prunes them on its own, while all nodes must agree on who is paid what. This project models that
side chain as p2pool-observer implements it, with the payout and difficulty arithmetic, the codecs and
the cryptographic kernels it rests on, and proves what holds in every run. `dafny verify dfyconfig.toml`
checks all of it.

## How the model is laid out

The store, and everything that holds over whole runs:

- `Blocks.dfy`: blocks, the store, the iteration cache, 64- and 128-bit wrap-around.
- `Verification.dfy`: the rules `verifyBlock` judges by, as a function (`VerdictOf`) and as the loops of the source.
- `VerdictRules.dfy`: the same rules on the fields of a block and its relatives, and that the verdict is exactly that.
- `ChainState.dfy`, `ChainSteps.dfy`: the memory of the side chain as one value, its invariant `Inv`, and every step proved to keep it.
- `Pruning.dfy`, `PruneSafety.dfy`: the key loop that deletes while it ranges, and why it stays in bounds.
- `Depths.dfy`: how depths spread, what bounds them, and why the worklist runs dry.
- `ArrivalOrder.dfy`: validity defined on the bare set of blocks, and why arrival order does not matter to it.
- `NoDoubleCounting.dfy`: no block is counted twice along a verified chain.
- `Heaviest.dfy`: the block offered as tip has the greatest cumulative difficulty of those accepted.
- `SideChain.dfy`: the class with the fields of `SideChain`; every method is proved against the steps above.

Payout, difficulty and fork choice:

- `Selection.dfy`, `Permutations.dfy`, `Retarget.dfy`: quickselect and the next difficulty.
- `Window.dfy`, `Payout.dfy`, `Rewards.dfy`, `OutputCalculation.dfy`: PPLNS window, share compaction, shuffle, reward split, outputs.
- `WindowShares.dfy`: the window entry by entry, who gets which weight. `MinerPay.dfy`: what a checked payout means for each miner.
- `ForkChoice.dfy`: which of two chains is longer.
- `Uint128.dfy`: two-word difficulties refine the numbers modulo 2^128 used everywhere else.

Encodings:

- `Bytes.dfy`, `Outputs.dfy`, `ExtraTags.dfy`, `Coinbase.dfy`, `MainBlock.dfy`, `SideData.dfy`, `Templates.dfy`: writing and reading, layer by layer.
- `WireFormat.dfy`: every form of a pool block as a list of typed fields, apart from the writers.
- `Decoding.dfy`: what can come out of reading arbitrary bytes.
- `TemplateViews.dfy`: decoded blocks as the side chain sees them, and why calculated outputs have the bytes of the original ones.
- `Broadcast.dfy`: rebuilding pruned and compact blocks from the chain of parents and the share window.
- `Relay.dfy`: a block on its way from one node to another, whatever form the peer is sent.
- `FullIds.dfy`: template id and full id.

Kernels: `ScalarReduction.dfy` (reduction modulo the group order), `Merkle.dfy` (tree hash), `WorkSplit.dfy`
(concurrent work distribution).

A block object is a value of `PoolBlock`; its field `addr` stands for its address, so two objects holding
the same block are different values. Hash references cannot form a cycle; `rank` is a number that shrinks
along every reference. Verdicts, depths and caches, which the source keeps in the block, are sets and maps
keyed by the object. `universe` is the set of all block objects that may ever be offered: equal ids mean
equal contents there.

The strongest statements, each over all inputs or all runs:

- `SideChainStore.SideChain.AddPoolBlock` and `AddAll`: every call keeps `AtRest`. That is, the three indexes agree
  exactly, verdicts are final, every fully checked valid block has a valid parent and valid uncles, the tip is valid, the cached
  difficulty is what a recomputation on the present store gives as long as the window below the tip was fully checked, height plus
  depth never exceeds the greatest height added, depths never fall, and pruning never runs off its key list. For blocks below the
  window size, every order of arrival ends with exactly the blocks that a recursive definition on the set of blocks calls valid, and
  with a tip that none of them exceeds in cumulative difficulty as long as difficulties can be computed.
- `Heaviest.BestIsHeaviest`: of related blocks accepted in one call, the one offered as tip is the first with the greatest cumulative difficulty.
- `VerdictRules.VerdictIff`: acceptance, as an if and only if on the fields of the block, its parent, its uncles and its window.
- `WindowShares.WindowMeaning` and `MinerPay.PayoutMeaning`: who is paid for what, share by share and miner by miner.
- `Retarget.NextDifficultyMeaning`: the next difficulty in plain numbers, and exactly when it overflows.
- `ForkChoice.PreferredIff`: which of two blocks is preferred, related or not.
- `NoDoubleCounting.WorkIsCountedOnce`: a cumulative difficulty is that of an ancestor plus the work of pairwise distinct blocks.
- `Broadcast.BlockPool.Receive` and `Relay.Deliver`: a block that passes the payout check, sent pruned and compact, is rebuilt to the
  same full encoding, its outputs calculated from what arrived. `TemplateViews.RebuiltIffTyped` says exactly when the outputs can be rebuilt.
- `Payout.MergedIgnoresOrder`: payouts do not depend on how the unstable sort arranges the shares of one miner.
- `Decoding.ReadWriteRead`: reading arbitrary bytes, writing and reading again gives the same block, but for three oddities that reading tolerates.
- `FullIds.FullIdIdentifies`: equal full ids mean equal encodings, or a collision of the hash.
- `ScalarReduction.ScReduce32`: the bytes become the number modulo L, for all 2^256 inputs, without overflow.
- `Rewards.SplitSucceedsIff` and `SplitIsExactAndFair`, `ExtraTags.TagsBackIff`, `WorkSplit.TrueMeansDoneIff`: exact conditions for
  properties that fail outside of them.

## Model

| member | source | states |
|---|---|---|
| SideChainStore.SideChain.constructor | p2pool/sidechain/sidechain.go:92-110 | an empty chain is at rest: all invariants hold from the start |
| SideChainStore.SideChain.AddPoolBlock | p2pool/sidechain/sidechain.go:415-465 | a call keeps everything that holds between calls; known or unencodable blocks change nothing; verdicts stay, depths do not fall, nothing but the new block enters the index; how the call ends is stated exactly, verdicts and tip included; a failure means that the block itself was found invalid |
| SideChainStore.SideChain.AddAll | p2pool/sidechain/sidechain.go:415-560 | over any sequence of calls: if all blocks are below the window size and each arrives, the verified and valid blocks are exactly those the definition on the set of blocks calls valid, the tip is one of them, and none has more cumulative difficulty, unless a valid block on which no difficulty can be computed has at least as much |
| SideChainStore.SideChain.Insert | p2pool/sidechain/sidechain.go:429-446 | all indexes take in the block, and the sorted flag stays truthful |
| SideChainStore.SideChain.InsertHeight | p2pool/sidechain/sidechain.go:438-446 | the height index and its key list, with the sorted flag kept only for a key that extends the list by one |
| SideChainStore.SideChain.Conclude | p2pool/sidechain/sidechain.go:456-464 | a valid block that already has its verdict is offered as tip, an invalid one changes nothing, any other is judged with what waited for it and the best of those accepted is offered; no ready block is left unjudged |
| SideChainStore.SideChain.VerifyLoop | p2pool/sidechain/sidechain.go:467-560 | terminates; verdicts are final; every block that became ready is judged; of the newly accepted blocks, in the order of acceptance, the one kept on the longer chain is offered as tip, and if they are related it has the greatest cumulative difficulty; fails exactly if the block is newly invalid |
| SideChainStore.SideChain.JudgeAll | p2pool/sidechain/sidechain.go:470-553 | the worklist loop, by (unverified blocks, stack length): nothing but verdicts, caches and links changes, each acceptance is recorded in order, the highest block is the best of the record, and the first block has its verdict or waits |
| SideChainStore.SideChain.JudgeLast | p2pool/sidechain/sidechain.go:474-552 | one round: a verified block is dropped, any other gets the verdict of the rules |
| SideChainStore.SideChain.PushAbove | p2pool/sidechain/sidechain.go:532-551 | after an acceptance the highest block is the best of all accepted so far, and blocks up to three heights above are pushed |
| SideChainStore.SideChain.Judge | p2pool/sidechain/sidechain.go:481-529 | the flags and the cache after a verdict |
| SideChainStore.SideChain.FillCache | p2pool/sidechain/sidechain.go:511-528 | the cache entry holds parent and all uncles, or does not exist |
| SideChainStore.SideChain.Prefer | p2pool/sidechain/sidechain.go:532-536 | the newly verified block replaces the highest one exactly if its chain is longer |
| SideChainStore.SideChain.UpdateChainTip | p2pool/sidechain/sidechain.go:887-934 | the tip moves exactly for a valid, shallow block on a longer chain with a computable difficulty; that difficulty is cached, and old blocks are pruned; a new tip has more cumulative difficulty than the old one, or, if they are unrelated, more work in its window |
| SideChainStore.SideChain.PruneOldBlocks | p2pool/sidechain/sidechain.go:936-992 | keeps the invariant, forgets only dead blocks at or below the cut, and of two neighbouring stored heights there leaves at least one without dead blocks |
| SideChainStore.SideChain.PruneKey | p2pool/sidechain/sidechain.go:966-991 | one height is pruned, and an emptied one leaves the key list, whose tail is cleared |
| SideChainStore.SideChain.SortKeys | p2pool/sidechain/sidechain.go:953-956 | the same keys, sorted |
| SideChainStore.SideChain.UpdateDepths | p2pool/sidechain/sidechain.go:785-885 | terminates; depths only rise and height plus depth stays bounded; with tidy blocks no stored child ends up on a higher level than its stored parent, and every genesis block and every block too deep to be checked has its verdict |
| SideChainStore.SideChain.VerifyDeep | p2pool/sidechain/sidechain.go:822-827 | a block taken from the worklist that is genesis or too deep to be checked gets its verdict there and then |
| SideChainStore.SideChain.TakeDepth | p2pool/sidechain/sidechain.go:798-814 | the new block takes the greatest depth plus one among blocks above that lend it, with the comparison as written |
| SideChainStore.SideChain.Spread | p2pool/sidechain/sidechain.go:829-883 | after a round the parent, the uncles and the blocks above that refer to the block are as deep as it demands, and whatever rose is on the worklist |
| SideChainStore.SideChain.RaiseChildren | p2pool/sidechain/sidechain.go:829-852 | every block up to three heights above that refers to this one is at most that much less deep; stops only at a child from a wrong height |
| SideChainStore.SideChain.RaiseParent | p2pool/sidechain/sidechain.go:854-864 | the parent is at least one deeper, or has a wrong height |
| SideChainStore.SideChain.RaiseUncles | p2pool/sidechain/sidechain.go:866-883 | every uncle at a proper height is deeper by the difference of heights, even if another one is misplaced |
| ChainSteps.InsertOk | p2pool/sidechain/sidechain.go:429-446 | adding a block keeps the invariant, the cached difficulty included |
| ChainSteps.AcceptOk | p2pool/sidechain/sidechain.go:498-529 | accepting a block keeps the invariant, the cached difficulty included |
| ChainSteps.RejectOk | p2pool/sidechain/sidechain.go:481-488 | rejecting a block keeps the invariant |
| ChainSteps.TipOk | p2pool/sidechain/sidechain.go:905-909 | a new tip with the difficulty computed on it keeps the invariant |
| ChainSteps.AcceptedFollows | p2pool/sidechain/sidechain.go:593-705 | a block accepted by the full rules has a stored, valid parent one height below, stored and valid uncles at most three heights below, and the right cumulative difficulty |
| ChainSteps.AcceptedFresh | p2pool/sidechain/sidechain.go:631-656 | none of its uncles is a near ancestor or an uncle of one |
| ChainState.DifficultyKept | p2pool/sidechain/sidechain.go:713-725 | the cached difficulty survives every change that keeps the tip and what its window can reach |
| ChainState.KeptAgrees | p2pool/sidechain/utils.go:345-399 | a window of fully verified blocks is walked alike in both states |
| Pruning.PruneOk | p2pool/sidechain/sidechain.go:960-992 | pruning one height far enough below the tip keeps the invariant |
| Pruning.PruneLoopStep | p2pool/sidechain/sidechain.go:960-992 | a round of the delete-while-ranging loop finds a stored height at an index inside the shrinking key list |
| Pruning.SweepStep | p2pool/sidechain/sidechain.go:960-992 | when a height is emptied the loop skips exactly the next one |
| Pruning.PrunesMeaning | p2pool/sidechain/sidechain.go:936-992 | in plain numbers: what is forgotten is outdated and at least two windows and two minutes of blocks below the tip, and outdated blocks that far down stay only right above a height that has none left |
| PruneSafety.AcceptedTipSafe | p2pool/sidechain/sidechain.go:960-992 | every accepted block leaves two stored heights above the cut it would cause as tip, or causes none |
| PruneSafety.FootingPrune | p2pool/sidechain/sidechain.go:960-992 | pruning keeps that true of all valid blocks, and forgotten blocks stay below two stored heights |
| Depths.PushesOk | p2pool/sidechain/sidechain.go:788-796 | raising depths within the bound keeps the invariant |
| Depths.TidyIsConsistent | p2pool/sidechain/sidechain.go:829-883 | with height-consistent blocks no update of depths breaks off |
| Depths.SettleBlock | p2pool/sidechain/sidechain.go:854-864 | once its parent is deep enough a block has no open edge |
| Depths.TakenDepthBounds | p2pool/sidechain/sidechain.go:798-814 | the depth taken by a new block stays within the bound and covers every lender |
| Depths.RaiseLeavesNoGaps | p2pool/sidechain/sidechain.go:785-885 | raising a block to the level of one within three heights of it leaves no gap: from a block up to the height its depth speaks of there are never three heights in a row without a known block, which every reachable state keeps |
| ArrivalOrder.AcceptedIsValid | p2pool/sidechain/sidechain.go:562-783 | below the window size, what is accepted is valid on the set of all blocks |
| ArrivalOrder.ValidIsNotRejected | p2pool/sidechain/sidechain.go:562-783 | below the window size, what is valid is never rejected, whatever has arrived so far |
| ArrivalOrder.ReadyIsDecided | p2pool/sidechain/sidechain.go:593-666 | a block whose parent and uncles are valid is not put off |
| ChainSteps.CachedIsRecomputed | p2pool/sidechain/sidechain.go:713-725 | on top of a tip whose window was fully checked, the cached difficulty is what a recomputation gives, at any height |
| ChainSteps.VerdictIgnoresTip | p2pool/sidechain/sidechain.go:562-783 | then the verdict on every block is the same with and without the shortcut for blocks on top of the tip |
| ArrivalOrder.PendingAccept | p2pool/sidechain/sidechain.go:547-551 | accepting a block makes only blocks up to three heights above it ready, so pushing those is enough |
| ArrivalOrder.OutcomeIgnoresOrder | p2pool/sidechain/sidechain.go:415-560 | when all blocks have arrived, the valid ones are exactly those verified and valid |
| Heaviest.BestIsHeaviest | p2pool/sidechain/sidechain.go:532-536 | among related blocks, keeping the one on the longer chain leaves the first with the greatest cumulative difficulty |
| Heaviest.LowRelated | p2pool/sidechain/sidechain.go:562-591 | any two valid blocks below the window size are related, since all genesis blocks name the zero parent |
| Heaviest.OfferHeaviest | p2pool/sidechain/sidechain.go:555-557 | offering the heaviest of the new blocks makes the tip at least as heavy as every valid block, unless one on which no difficulty can be computed is as heavy |
| Heaviest.HeaviestIfComputable | p2pool/sidechain/sidechain.go:887-934 | if a difficulty can be computed on every valid block, none has more cumulative difficulty than the tip |
| NoDoubleCounting.EachCountedOnce | p2pool/sidechain/sidechain.go:617-705 | along a fully verified chain all main blocks and all their uncles are pairwise distinct |
| NoDoubleCounting.CumulativeIsWork | p2pool/sidechain/sidechain.go:690-705 | cumulative difficulty grows by the work of every block and uncle, modulo 2^128 |
| NoDoubleCounting.WorkIsCountedOnce | p2pool/sidechain/sidechain.go:617-705 | both together, with equality of numbers unless something wrapped |
| Verification.VerifyBlock | p2pool/sidechain/sidechain.go:562-783 | the loops and early returns compute the verdict of the rules, which VerdictIff states on the fields |
| VerdictRules.VerdictIff | p2pool/sidechain/sidechain.go:593-783 | a checked block is accepted exactly if its height, seed, uncle order, uncles, cumulative difficulty, difficulty and payout are right, each stated on the fields; it waits only if a relative is missing or unverified |
| VerdictRules.VerdictAtEnds | p2pool/sidechain/sidechain.go:562-591 | a genesis block is accepted or rejected by its fields alone, and a block too deep to be checked is accepted |
| VerdictRules.WrongSeedIsRejected | p2pool/sidechain/sidechain.go:602-610 | from version 2 on, a block with a verified parent and another key seed than the parent prescribes is rejected at once |
| VerdictRules.SeedIsKept | p2pool/sidechain/sidechain.go:602-610 | in every reachable state, verified blocks of version 2 mined one after another on one Monero block share the key seed |
| VerdictRules.MinedMeaning | p2pool/sidechain/sidechain.go:631-642 | an id is listed exactly if one of the near ancestors has it or names it as uncle |
| VerdictRules.SameChainMeaning | p2pool/sidechain/sidechain.go:668-689 | an uncle is on the same chain exactly if two lines of equal length from it and from an ancestor end in blocks with one parent, none of them too far below |
| Verification.MinedBlocks | p2pool/sidechain/sidechain.go:631-642 | the ids of the ancestors and their uncles, in order |
| Verification.OnSameChain | p2pool/sidechain/sidechain.go:668-689 | whether block and uncle share an ancestor near enough |
| Verification.CheckUncles | p2pool/sidechain/sidechain.go:644-700 | the first unfavourable verdict on an uncle, and the difficulty of the uncles before it |
| Verification.CheckPayout | p2pool/sidechain/sidechain.go:727-776 | the outputs are those the window prescribes |
| Verification.CheckWindow | p2pool/sidechain/sidechain.go:707-776 | the checks made only for blocks inside the window |
| Verification.GetShares | p2pool/sidechain/utils.go:296-306 | the shares of the window, compacted and shuffled |
| OutputCalculation.CalculateOutputs | p2pool/sidechain/utils.go:27-72 | the outputs the share window prescribes, whatever outputs the block has or lacks, or none if the window or the split fails |
| OutputCalculation.PassesIffPrescribed | p2pool/sidechain/sidechain.go:727-776 | a block with outputs of one type passes the payout check exactly if they are the prescribed ones and add up to its reward |
| TemplateViews.SameWrittenBytes | monero/transaction/output.go:78-99 | outputs that agree in reward, key, type and written view tag have the same encoding |
| TemplateViews.SamePrescribed | p2pool/sidechain/utils.go:27-72 | the prescribed outputs depend only on parent, uncles, height, difficulty, version, miner, keys and reward of the block, not on its outputs, transactions or identity |
| TemplateViews.ArrivedIsCalculated | p2pool/sidechain/poolblock.go:552-557 | for a block that passes the payout check, the outputs calculated from its pruned form have the bytes of the original ones |
| TemplateViews.RebuiltIffTyped | p2pool/sidechain/poolblock.go:611-623 | of a block that pays right, the calculated outputs have the announced length exactly if its outputs have the type its major version prescribes, which the payout check does not look at |
| Selection.NthElement | utils/nthelement.go:11-29 | a permutation in which nothing before position k exceeds it and nothing after undercuts it |
| Selection.Partition | utils/nthelement.go:31-43 | the pivot ends where smaller values are before it and the rest after, by a permutation of the range |
| Selection.SplitIsOrderStatistic | utils/nthelement.go:11-29 | position k then holds the k-th value of the sorted list |
| Retarget.NextDifficulty | p2pool/sidechain/utils.go:403-464 | quickselect, bounds, scaling and minimum give what a specification by sorting gives, which NextDifficultyMeaning states in plain numbers |
| Retarget.NextDifficultyMeaning | p2pool/sidechain/utils.go:403-464 | the result times the time span is the difficulty gained between the cuts times the target time, rounded down, or the minimum where that is more; overflow exactly if the product takes more than 128 bits |
| Retarget.NextDifficultyFailsOnlyOnOverflow | p2pool/sidechain/utils.go:403-464 | for non-empty data with timestamps clear of wrap-around no subtraction underflows, the divisor is at least one, and the only failure is overflow of the product |
| Retarget.NextDifficultyIgnoresOrder | p2pool/sidechain/utils.go:403-464 | the result depends only on the multiset of samples |
| Retarget.CutBounds | p2pool/sidechain/utils.go:410-424 | the bounds are the order statistics at one tenth from either end |
| Retarget.Extremes | p2pool/sidechain/utils.go:431-447 | least and greatest cumulative difficulty inside the bounds |
| Retarget.GetDifficultyForNextBlock | p2pool/sidechain/utils.go:345-399 | the window walk with uncles feeds the retarget, or a block is missing |
| Retarget.CollectMeaning | p2pool/sidechain/utils.go:345-399 | the samples are exactly those of the blocks of a full window of ancestors and of their uncles inside the window |
| Retarget.CollectSucceeds | p2pool/sidechain/utils.go:345-399 | collecting fails only if a block is missing |
| Window.BlocksInPPLNSWindow | p2pool/sidechain/utils.go:179-266 | the loop computes the shares and the bottom height of the window function, which WindowMeaning states share by share |
| Window.IterateBlocksInPPLNSWindow | p2pool/sidechain/utils.go:82-177 | the other iterator gives the same weights and bottom height, and its slots follow the parents |
| Window.CountUncles | p2pool/sidechain/utils.go:121-147 | the loop over the uncles of one block books them as UnclesBooked states |
| WindowShares.UnclesBooked | p2pool/sidechain/utils.go:121-147 | every uncle inside the window that does not exceed the cap gets its difficulty less the penalty, in order, any other gets nothing, and the nephew gets its own difficulty and the penalties of those counted |
| WindowShares.WindowMeaning | p2pool/sidechain/utils.go:82-266 | the window is a list of entries that follow the parents; each books the uncles of a block and then the block itself, and the last is where the cap, the window size or the genesis block is reached; the cap is twice the Monero difficulty at the seed height |
| WindowShares.EachBooked | p2pool/sidechain/utils.go:82-266 | each entry on its own: its shares, its uncles, its parent, and that it ends the walk exactly if it is the last |
| WindowShares.WindowSucceeds | p2pool/sidechain/utils.go:82-119 | with no block missing, the window fails exactly if the Monero difficulty is unknown |
| WindowShares.SeedHeightMeaning | monero/randomx/randomx.go:18-24 | the seed height is the greatest multiple of 2048 at least 65 below the height |
| Window.WindowConservesWeight | p2pool/sidechain/utils.go:179-266 | weights sum to the difficulties of the counted blocks modulo 2^128, exactly without wrap-around; the sum before the last share is within the cap; there is a share |
| Uint128.PenaltyDividesDifficulty | p2pool/sidechain/consensus.go:285-289 | the penalty is the percentage rounded down and the weight is the rest, unless the product overflows |
| Uint128.Add | types/difficulty.go:79-84 | two-word addition is addition modulo 2^128 |
| Uint128.Sub | types/difficulty.go:92-94 | two-word subtraction with borrow is subtraction modulo 2^128 |
| Uint128.Mul64 | types/difficulty.go:107-112 | two-word multiplication is multiplication modulo 2^128 |
| Uint128.Cmp | types/difficulty.go:39-48 | word-wise comparison is the order of the numbers |
| Payout.CompareSharesIsConsensusOrder | p2pool/sidechain/share.go:20-32 | the shortcut on the last byte agrees with the consensus order of spend and view keys |
| Payout.CompareKeysIsIntegerOrder | monero/crypto/crypto.go:9-45 | comparing words from the top is the order of the keys as little-endian numbers |
| Payout.Sort | p2pool/sidechain/share.go:20-32 | the same shares, none comparing greater than a later one; nothing about the order of equal addresses |
| Payout.MergedIgnoresOrder | p2pool/sidechain/share.go:47-68 | any two sorted arrangements of the same shares merge to the same list |
| Payout.Compact | p2pool/sidechain/share.go:47-68 | the in-place merge leaves the merged shares in front |
| Payout.CompactMergesMiners | p2pool/sidechain/share.go:47-68 | strictly increasing addresses, the same miners, each with the merged sum of its weights |
| Payout.MergedWeightFits | p2pool/sidechain/share.go:47-68 | for weights of 128 bits the merged sum is the sum modulo 2^128 |
| Rewards.XorShiftReversible | utils/xorshift64star.go:5-10 | the generator can be run backwards, so a seed that is not zero never becomes zero |
| Rewards.ShuffleShares | p2pool/sidechain/utils.go:309-332 | the swaps are in bounds and give the shuffle of the seed; version 1 is left alone |
| Rewards.PickMeaning | p2pool/sidechain/utils.go:316-332 | the position drawn is the seed times the number of positions, divided by 2^64 and rounded down |
| Rewards.ShuffleMeaning | p2pool/sidechain/utils.go:309-332 | each position in turn is exchanged with one drawn from the rest by the next number of the generator, which starts from the hash, or one |
| Rewards.ShuffleIsPermutation | p2pool/sidechain/utils.go:316-332 | the shuffle is a permutation |
| Rewards.SplitReward | p2pool/sidechain/utils.go:470-503 | the rewards are differences of rounded-down running parts, or none |
| Rewards.SplitSucceedsIff | p2pool/sidechain/utils.go:470-503 | the split succeeds exactly if the total weight is not zero and its product with the reward fits 128 bits |
| Rewards.SplitIsExactAndFair | p2pool/sidechain/utils.go:470-503 | then the rewards sum to the reward, and each is within one unit of the proportional part |
| MinerPay.PayoutMeaning | p2pool/sidechain/sidechain.go:727-780 | a block that passes the payout check pays each miner of its window once, at its one-time key; the rewards add up to that of the block, and each is proportional to the merged weight to within one unit, unless the arithmetic wraps |
| MinerPay.RightPayoutPasses | p2pool/sidechain/sidechain.go:727-780 | a block with these outputs passes |
| MinerPay.TotalMeaning | p2pool/sidechain/sidechain.go:727-780 | the total that is checked is the sum of the rewards modulo 2^64 |
| ForkChoice.IsLongerChain | p2pool/sidechain/utils.go:505-611 | both branches compute the choice function, which PreferredIff states on blocks and chains |
| ForkChoice.PreferredIff | p2pool/sidechain/utils.go:505-611 | with a common ancestor the candidate is preferred exactly if it has more cumulative difficulty; without one, exactly if it has more work in its window and its Monero blocks are up to date |
| ForkChoice.DescendantBeatsAncestor | p2pool/sidechain/utils.go:505-541 | a block is preferred over an ancestor exactly if its cumulative difficulty is greater |
| ForkChoice.RelatedMeaning | p2pool/sidechain/utils.go:514-541 | the walks find a common ancestor exactly if there is one |
| ForkChoice.TotalIsWork | p2pool/sidechain/utils.go:543-611 | the total of a chain is the work of its blocks and their uncles modulo 2^128 |
| ForkChoice.KnownMeaning | p2pool/sidechain/utils.go:543-611 | the Monero blocks found are those mined on, each once |
| ForkChoice.NewestMeaning | p2pool/sidechain/utils.go:543-611 | the newest Monero height is the greatest one found |
| ForkChoice.OldestMeaning | p2pool/sidechain/utils.go:543-611 | the oldest Monero height is the least one, except that a zero height discards those before it |
| ForkChoice.FindRelated | p2pool/sidechain/utils.go:514-541 | whether the walks down to equal heights meet |
| ForkChoice.CompareChains | p2pool/sidechain/utils.go:543-611 | total difficulties and main-chain checks over the window |
| ForkChoice.ForkChoiceAsymmetric | p2pool/sidechain/utils.go:505-611 | of two blocks on chains whose heights drop by one, never is each preferred over the other, nor a block over itself |
| Bytes.UvarintBack | monero/transaction/output.go:17-29 | reading a written 64-bit integer gives it back and stops right after it |
| Bytes.SizeIsLength | utils/number.go:141-165 | the size is the length of what is written |
| Outputs.AppendOutputs | monero/transaction/output.go:78-99 | the loop writes the encoding, or fails for an unknown type |
| Outputs.OutputsFromReader | monero/transaction/output.go:14-59 | the loop reads what the reading function gives |
| Outputs.OutputsBufferLength | monero/transaction/output.go:61-72 | the computed length is the length of the encoding |
| Outputs.OutputsBack | monero/transaction/output.go:14-99 | outputs with their positions as indexes are restored |
| ExtraTags.TagsFromReader | monero/transaction/extra.go:82-96 | the loop over one reused tag gives what the reading function gives |
| ExtraTags.AppendTags | monero/transaction/extra.go:54-66 | the loop writes the tags |
| ExtraTags.AppendErasedTags | monero/transaction/extra.go:68-80 | the hashed form is the encoding of the erased tags |
| ExtraTags.TagsBufferLength | monero/transaction/extra.go:42-47 | the computed length is the length of the encoding |
| ExtraTags.TagsBackIff | monero/transaction/extra.go:82-96 | a list of proper, distinct tags is restored exactly if no public key comes after another tag |
| Coinbase.AppendCoinbase | monero/transaction/coinbase.go:153-178 | the full or the pruned encoding; outputs of an unknown type empty the buffer |
| Coinbase.CoinbaseLengthIsLength | monero/transaction/coinbase.go:140-147 | the computed length is the length of the full encoding |
| Coinbase.Totals | monero/transaction/coinbase.go:86-96 | the loop adds up rewards and sizes |
| Coinbase.TotalsMeaning | monero/transaction/coinbase.go:86-96 | the totals are sums modulo 2^64, 33 bytes an output and one more for each view tag |
| Coinbase.CoinbaseBack | monero/transaction/coinbase.go:39-134 | both encodings are restored, outputs and derived totals according to the form |
| MainBlock.AppendBlock | monero/block/block.go:66-101 | fails exactly for an unsupported version; otherwise appends the chosen form, unless an output of unknown type emptied the buffer on the way |
| MainBlock.AppendTransactions | monero/block/block.go:82-98 | hashes, or indexes into the parent where there are any |
| MainBlock.EntriesFromReader | monero/block/block.go:154-178 | the compact loop reads what the reading function gives |
| MainBlock.HashesFromReader | monero/block/block.go:179-190 | the full loop reads what the reading function gives |
| MainBlock.BlockLengthIsLength | monero/block/block.go:53-60 | the computed length is the length of the full encoding |
| MainBlock.BlockBack | monero/block/block.go:116-193 | every form is restored: compact transactions as hashes or indexes, all else exactly |
| MainBlock.SideChainHashingBlob | monero/block/block.go:228-246 | the hashed blob is the full encoding of the block with nonce, extra nonce and template id erased, unless an output has an unknown type |
| SideData.AppendSide | p2pool/sidechain/sidedata.go:51-78 | the fields of the share version |
| SideData.SideLengthIsLength | p2pool/sidechain/sidedata.go:35-45 | the computed length is exact for version 2 and sixteen too many for version 1 |
| SideData.SideBack | p2pool/sidechain/sidedata.go:80-156 | everything the version writes is restored |
| Templates.AppendTemplate | p2pool/sidechain/poolblock.go:485-498 | main block and side data, or an error exactly if the version is unsupported or the result too large |
| WireFormat.TemplateOnWire | p2pool/sidechain/poolblock.go:485-498 | every form of a pool block is a list of typed fields, numbers in LEB128 or little-endian and hashes as they are |
| WireFormat.UvarintIsLeb128 | monero/transaction/output.go:78-99 | a written integer is its base-128 digits, least first, all but the last marked, without leading zero |
| Templates.ReadingChecks | p2pool/sidechain/poolblock.go:500-549 | whatever is read has the share version of its timestamp, the major version of its height, a merge-mining tag and a proper coinbase, and its transaction key or seed is filled in |
| Templates.TemplateBack | p2pool/sidechain/poolblock.go:500-549 | reading any form gives the block with what the form leaves out empty or derived |
| Templates.FullRoundTrip | p2pool/sidechain/poolblock.go:473-524 | the full encoding is restored to a block with the same encoding, and the computed length is right |
| Decoding.ReadWriteRead | p2pool/sidechain/poolblock.go:473-549 | from any full bytes: what was read is written to bytes that are read as the same block, unless its version is not supported, it came without outputs, or its extra field has padding or a public key after other tags |
| Decoding.ReadIsOk | p2pool/sidechain/poolblock.go:500-549 | whatever is read, in any form and from any bytes, is a proper block exactly if none of that is the case |
| Decoding.SuffixShape | monero/transaction/coinbase.go:111-134 | an extra field that is read is a length of at most 65536, that many bytes of tags, and a zero |
| Decoding.TagsFit | monero/transaction/extra.go:82-96 | tags that are read are distinct, and have proper kinds and lengths except for padding and a public key after other tags |
| Decoding.OutputsFit | monero/transaction/output.go:14-59 | outputs that are read have known types, their positions as indexes and 64-bit rewards, and are not longer when written again |
| Decoding.UvarintIff | monero/transaction/output.go:17-29 | an integer is read exactly from at most ten marked bytes that fit 64 bits, minimal or not, and its value is the sum of its digits |
| Broadcast.FillFrom | p2pool/sidechain/poolblock.go:264-283 | transactions are copied wherever there is an index, exactly if all indexes are in range |
| Broadcast.FillParentIndices | p2pool/sidechain/poolblock.go:285-303 | every index is the position in the parent plus one, or zero |
| Broadcast.FilledStands | p2pool/sidechain/poolblock.go:264-283 | filling from a parent that is itself incomplete copies only right transactions |
| Broadcast.BlockPool.FillingTx | p2pool/sidechain/poolblock.go:561-592 | if the chain of parents reaches a full block, the block ends up with its real transactions; stored blocks only gain |
| Broadcast.BlockPool.PreProcess | p2pool/sidechain/poolblock.go:552-626 | what arrived pruned or compact from a truthful sender, with a payout that is right on this store, gets its full encoding back |
| Broadcast.BlockPool.Receive | p2pool/sidechain/poolblock.go:526-626 | the same from the bytes on the wire, with the outputs calculated from the block that arrived |
| Relay.LookedUpIsSendable | p2pool/sidechain/sidechain.go:143-145 | indexes looked up in the real parent are true, and change neither the full encoding nor whether it can be read |
| Relay.Choose | p2pool/p2p/server.go:828-892 | a compact message exactly for a peer that supports it and knows the relatives, if it is shorter than the pruned one; a pruned message exactly where that is allowed otherwise; else the full one |
| Relay.MessageFor | p2pool/p2p/server.go:799-892 | a message exists exactly if all three forms fit, and is the block in the form chosen |
| Relay.Deliver | p2pool/p2p/server.go:799-898 | look-up, choice of form, encoding, decoding and filling together: the peer ends up with the full encoding the sender had |
| FullIds.CalculateSideTemplateId | p2pool/sidechain/consensus.go:195-207 | the template id is the hash of erased main block, side data and consensus id |
| FullIds.IdIgnoresNonces | p2pool/sidechain/consensus.go:195-207 | blocks that differ only in nonce, extra nonce and template id have the same template id |
| FullIds.IdNamesConsensus | p2pool/sidechain/consensus.go:195-207 | template ids under different consensus ids are hashes of different bytes |
| FullIds.FullIdIdentifies | p2pool/sidechain/poolblock.go:363-370 | blocks tagged with their template ids and equal in full id have the same encoding, or their blobs collide |
| ScalarReduction.ScReduce32 | monero/crypto/edwards25519.go:34-206 | the 32 bytes become the little-endian number modulo L and nothing else changes; every intermediate value fits int64 |
| ScalarReduction.Reduce | monero/crypto/edwards25519.go:34-206 | the same on values: congruent and strictly below L |
| ScalarReduction.UnpackValue | monero/crypto/edwards25519.go:37-49 | twelve limbs hold the number the bytes spell |
| ScalarReduction.PackValue | monero/crypto/edwards25519.go:174-205 | the bytes spell the number the limbs hold |
| ScalarReduction.CarryRounding | monero/crypto/edwards25519.go:51-86 | the rounding carries keep the value and balance all limbs |
| ScalarReduction.FoldSubtracts | monero/crypto/edwards25519.go:88-94 | folding the thirteenth limb subtracts that multiple of L |
| ScalarReduction.FirstFold | monero/crypto/edwards25519.go:88-94 | after the first fold the value is within 2^252 of zero |
| ScalarReduction.SecondFold | monero/crypto/edwards25519.go:133-138 | the second fold ends in the range from 0 to L |
| ScalarReduction.Less32 | monero/crypto/edwards25519.go:8-20 | the order of the bytes as little-endian numbers |
| ScalarReduction.LimitIsGreatestMultiple | monero/crypto/edwards25519.go:3-5 | the limit is fifteen times L, the greatest multiple that fits 32 bytes |
| Merkle.RootHash | monero/crypto/merkle.go:27-56 | the in-place fold gives the root of the recursive tree, for every non-empty list |
| Merkle.MainBranch | monero/crypto/merkle.go:58-95 | hashing up from the first leaf along the branch gives the root, from three leaves on |
| Merkle.PairsKeepRoot | monero/crypto/merkle.go:46-50 | hashing neighbours first gives the same root as hashing halves last |
| Merkle.RootInjective | monero/crypto/merkle.go:27-56 | with an injective hash, lists of one length with equal roots are equal |
| Merkle.PreviousPowerOfTwo | utils/number.go:91-96 | a power of two, at most the argument and more than half of it |
| WorkSplit.RunOk | utils/concurrency.go:9-55 | the invariant holds after every interleaving of steps |
| WorkSplit.EachHandedOnce | utils/concurrency.go:36-40 | in every interleaving the k-th index handed out is k, so none goes to two workers |
| WorkSplit.TrueMeansAllOnce | utils/concurrency.go:9-55 | with an error callback, a true result means every index was completed exactly once without error |
| WorkSplit.TrueMeansDoneIff | utils/concurrency.go:9-55 | every finished run with a true result has completed each index once, exactly if there is an error callback or nothing to do |
| WorkSplit.SilentFailure | utils/concurrency.go:42-48 | without a callback, for every amount of work and every number of workers some run completes nothing and still returns true |

## Left out

- AddPoolBlock: blocks are drawn from a set in which ids determine contents, heights stay clear of 64-bit wrap-around, and one call is one atomic step, as under `sidechainLock`.
- AddAll: the statement on arrival order is for blocks below the window size with one object per id; the one on the tip excepts blocks no heavier than a valid block on which no difficulty can be computed, because the code offers only the heaviest block and passes it over then.
- DifficultyKept: says nothing of a window that reaches blocks accepted unchecked because of their depth; their parents need not be stored.
- UpdateDepths: levels of parents and children are compared only for height-consistent blocks with one object per id; equality of levels and levels of uncles are not claimed, because the code does not maintain them: it compares the index of an uncle with one, so depths are also taken from blocks that are no descendants.
- PruneOldBlocks: one pass does not remove every dead block; what it does reach is stated. The local time of a block plus the delay is not wrapped.
- VerifyLoop: broadcasting, saving, logging and filling parent indices after a verdict are not part of the model.
- UpdateChainTip: the synchronisation tip, the derivation cache and the server callbacks are not part of the model.
- IsLongerChain: the view of the Monero chain is a parameter, and sums of main-chain heights are not wrapped.
- Sort: an insertion sort stands for the algorithm of the standard library, whose contract is all that is used.
- CheckPayout: key derivation and the hash that seeds the shuffle are parameters.
- TrueMeansDoneIff: work size plus number of workers is taken to be below 2^64, so that the counter cannot wrap.
- MainBranch: the branch that would append the second leaf is not written out; the first leaf is always copied.
- RootInjective: injectivity of the hash is a hypothesis on an abstract hash of unbounded range.
- TemplateBack: hard-fork tables (p2pool/sidechain/hardfork.go) and key derivation are parameters; a missing merge-mining tag, which panics, counts as a failed read.
- Receive: the store that payouts are calculated on and the pool that transactions are filled from are separate parameters; copying the outputs of a block that is already stored (`PreprocessBlock`) is not modelled.
- Deliver: the parent the sender looks indexes up in is taken to hold its real transactions; notifying a peer that already has the block is not modelled.
- TagsBackIff: padding tags are read as the code reads them, but no round trip is claimed for them; a padding tag that is a single byte, which panics, counts as a failed read.
- ReadWriteRead: says nothing of unsupported versions, missing outputs, padding, or a public key after other tags, which reading accepts.
- ReadIsOk: inputs are taken to be shorter than 2^64 bytes.
- ScReduce32: masks, shifts and `|` of separate bit fields are written as arithmetic, and the 32 byte assignments as one parallel assignment.
- `AddPoolBlockExternal`, proof of work, the rest of the peer-to-peer server, RPC clients, mempool and block reward: network plumbing or arithmetic without a stated specification.
- Memory reuse, derivation caches and preallocated buffers: caches are the functions they memoise.
- JSON, SQL, logging and formatting: they would only add easy members.
