# A verified model of the Hanticoin node

Hanticoin is a small proof-of-stake payment chain. This project models the node as a state machine
together with the data it must keep in agreement: the hash-linked block store, the ledger of balances and
nonces, the validator set, the mempool and the double-sign table.

The model has two layers.

- **Meaning.** Pure functions say what the system computes: the plain sequential ledger (`Ledger`), the
  validator set and the round-robin leader (`Validators`), block identity and Merkle roots (`Blocks`,
  `Merkle`), and the node's steps and whole runs (`NodeMachine`). An event is a received transaction, a
  received block, a received batch, a producer tick, a request for blocks, or a restart; `Run` folds any
  list of events. The invariants over every run are proved in `NodeSound`, `NodeEvidence`, `NodeLeaders`,
  `NodeSync`, `NodeHeights`, `NodeGrowth` and `NodeSignatures`; `NodeRules` says outright what a node does with
  each message. `Documented` states the documented rules for a block and compares.
- **Code.** Classes with the source's mutable fields and loops: `StateStore.State` over one flat byte-keyed
  store, `ChainStore.Chain`, `Mempool.Pool` over its backing array, `Node.Node` over all of them. Each
  method is proved to compute what the meaning layer says. `blockMu` serialises block handling and block
  production, so a message or a tick is one step.

Hashing is a parameter `sha` from texts to 32 bytes; it is never assumed to be injective. Results about
identity either compute two colliding texts (`Merkle.Collision`, `Blocks.IdentityCollision`,
`NodeSync.ChainCollision`, `NodeSync.TailCollision`), or assume `HashSafe` for the blocks the run touches: no block hash is zero, and
equal block hashes mean equal hashed fields. JSON encoding of hashed payloads is taken as injective and of
stored values as a round trip.

## Where the code and its documentation differ

The model follows the code; for each difference it proves when the documented rule holds, and where it fails
gives an input.

- Supply: docs/CONSENSUS_MODEL.md:54 and docs/WHITEPAPER.md:17 promise a constant supply and no minting.
  `Amount + Fee` is a wrapping uint64 addition (state/state.go:257, mempool/mempool.go:62), so an applied
  transaction whose cost overflows adds 2^64 to the supply. Also, docs/CONSENSUS_MODEL.md:157 pays the producer
  for applied transactions only, while state/state.go:258-261 adds a fee before the skip test.
  `Ledger.SupplyLaw` gives the supply after every block exactly, counting every wrap, `Ledger.ConservationIff`
  says exactly when a block conserves it, and `Ledger.ChainSupplyLaw` and `NodeSound.ReachableSupply` carry the
  law to chains and reachable states. `Documented.OverflowingCostMints` and `NodeSound.UnfundedFeeIsCredited`
  are failing inputs.
- Nonce rule: the documents add one per applied transaction. state/state.go:243-248 loads a nonce only for an
  address first seen as a sender. `Ledger.NonceLaw` is the law the code obeys, `Ledger.DocumentedNonceLawIff`
  says exactly when it is the documented one, and `Ledger.ReceiverNonceRestarts` is a failing block.
- Transaction checks: docs/CONSENSUS_MODEL.md:130-133 has a transaction skipped for a wrong signature, nonce,
  balance or fee, and docs/SECURITY.md:8 and docs/SECURITY.md:16 claim replay protection in the state. Applying a
  block checks only the balance, with a wrapping cost (`Ledger.NonceFieldIgnored`); the other checks are the
  mempool's. `Documented.VerdictsAgreeIff` says exactly when code and documents give the same verdict on every
  transaction of a block, reading the documented checks in order, each on the state the earlier transactions
  left; `Documented.RepeatedTransactionApplies` is a failing block.
- Reorganisation: docs/CONSENSUS_MODEL.md:179 validates every block of the competing chain, leader included.
  cmd/node/main.go:291-299 checks links and validity from the second block on and no leader.
  `NodeSound.AlwaysSoundIff` says exactly when the node stays true to its history all the same: the first
  block of every adopted batch claims a hash that is neither zero nor that of a later block in the batch, and
  no produced block has the hash that the first block of the chain claims. A valid first block suffices
  (`NodeSound.ValidFirstBlocksSuffice`), and so do honest heights
  (`NodeHeights.HonestHeightsSuffice`); `NodeSound.UncheckedFirstBlockBreaksReplay` shows a batch for which
  ledger and chain come apart. `NodeLeaders.LeaderRuleIff` says exactly when every adopted block is by its
  leader, and `NodeLeaders.WrongLeaderAdopted` shows a block that is refused alone and adopted in a batch.
- Determinism: docs/CONSENSUS_MODEL.md:161 has honest nodes that apply the same blocks agree. Nodes with one tip hash can differ in
  the first block, which is not checked (`NodeSync.SameTipDifferentLedger`); `NodeSync.SameTipSameLedger` says
  when their ledgers agree all the same.
- Longest chain: docs/CONSENSUS_MODEL.md:178 adopts the higher chain. A competing chain is fetched with a limit
  of 10000 blocks, so a longer one is adopted only up to that limit or not at all
  (`NodeSync.LongestChainRuleIff`; `NodeGrowth.LongChainNotAdopted` is a failing input).
- Block signatures: docs/SECURITY.md:9 has the signatures of received blocks validated, and the consensus rules
  have a block signed by its producer, but no code reads the signature of a block.
  `NodeSignatures.RunIgnoresSignatures` proves that none matters, and `NodeSignatures.UnsignedBlocksSlash` shows what follows for slashing: the evidence of
  `NodeEvidence.SlashingNeedsEvidence` is two valid blocks, not two signed ones.
- One block per height: README.md:298 asks a validator for at most one block per height. Heights of received
  blocks are not checked. With honest heights a node keeps the rule (`NodeHeights.ProducedHeightsRise`); without
  them it can break it (`NodeHeights.SecondBlockOfOneHeight`).
- Allocation: two keys of a genesis allocation that spell one address in different letter case may carry
  different amounts, and then the result depends on the iteration order of a Go map
  (`Validators.OneMeaningIffConsistent`, with the failing input `Validators.TwoSpellings`). The node theorems
  assume a consistent allocation; the default one is.

## Model

| member | source | states |
|---|---|---|
| NodeSound.LedgerIsReplayOfChain | cmd/node/main.go:228-347 | in every reachable state, over any mix of events: the tip's parent links lead through stored, pairwise different blocks to a zero parent; these are exactly the blocks the run adopted, all but the first valid; height, balances and nonces equal genesis followed by those blocks in order |
| NodeSound.LedgerIsReplayOfAdopted | cmd/node/main.go:228-347 | in every run in which no touched block hashes to zero, whatever first blocks were adopted and with no other assumption on hashes: the adopted blocks are linked from a zero parent to the stored tip, all but the first are valid, and balances and nonces equal genesis followed by exactly those blocks |
| NodeSound.ReachableSupply | state/state.go:254-273 | in every run in which no touched block hashes to zero, the sum of balances is what genesis allocated plus exactly what the adopted blocks add by skipped fees and wraps |
| NodeSound.ReachableChainSupply | state/state.go:254-273 | the same over the chain of the tip, on hash-safe runs with hashes apart |
| NodeSound.AlwaysSoundIff | cmd/node/main.go:228-347 | at every moment of a run the chain spells out the adopted blocks and the ledger is their replay, if and only if at every step the hashes the code fails to check are apart |
| NodeSound.StepSoundIff | cmd/node/main.go:228-347 | the same equivalence for one step from any state that agrees with its history |
| NodeSound.ReorgRecordsBatchIff | cmd/node/main.go:291-304 | after writing a linked batch, the links from its last block lead back through the whole batch if and only if the unchecked first block claims a hash that is neither zero nor a later block's |
| NodeSound.ReorgSoundIff | cmd/node/main.go:299-313 | after a reorganisation, tip, height, ledger and pool agree with the adopted batch exactly under that condition |
| NodeSound.ProduceSoundIff | cmd/node/main.go:552-568 | after producing a block, the state agrees with the old chain plus that block exactly when its hash is not the one the first block of the chain claims |
| NodeSound.ValidFirstBlocksSuffice | cmd/node/main.go:291-299 | if every adopted batch has a valid first block, the condition holds at every step and every block of the chain is valid |
| NodeSound.UncheckedFirstBlockBreaksReplay | cmd/node/main.go:291-313 | a concrete two-block batch that a fresh node adopts, after which the ledger is not the replay of the tip's chain |
| NodeSound.ReachableBranches | cmd/node/main.go:236-313 | in every run in which no touched block hashes to zero, whatever first blocks were adopted: after start-up the sync-from-empty branch is unreachable, and every reorganisation strictly raises the height |
| NodeSound.ReachableTipStored | cmd/node/main.go:228-347 | in the same runs the tip is never zero and is stored under its own hash with the height the node reports |
| NodeSound.ExtendSound | cmd/node/main.go:236-268 | the extension loop, whatever it skips, slashes or breaks off, ends in a state that agrees with the old chain plus the blocks it took over |
| NodeSound.InterleavedSlashes | state/state.go:203-233 | any interleaving of slashes and blocks ends where the replay of its blocks followed by its slashes ends; its accounts are those of the replay |
| NodeSound.PoolAlwaysTidy | mempool/mempool.go:38-107 | after every run, for any hash function, the pool is within its bound and holds no transaction hash twice |
| NodeRules.TxRule | cmd/node/main.go:348-355 | a received transaction is pooled and relayed if and only if there is room, it is signed, pays at least 100, carries its sender's stored nonce, is covered by the balance and is not pooled yet; otherwise nothing happens |
| NodeRules.PoolProvenance | mempool/mempool.go:38-75 | every pooled transaction of a reachable state was received at an earlier step at which it met all these conditions |
| NodeRules.PoolCleanedExactly | cmd/node/main.go:261-267 | adopting blocks by extension, announcement, reorganisation or production takes from the pool exactly the transactions they include |
| NodeRules.HistoryChecked | core/types.go:117-126 | every block of a run's history but the first carries the Merkle root of its transactions and the hash of its own fields |
| NodeRules.NewBlockRule | cmd/node/main.go:316-347 | the fate of an announced block: refused without effect, punished, recorded only, or taken over and passed on, and the exact state in each case |
| NodeRules.BadBlockIgnored | core/types.go:117-126 | a block with a wrong root or hash is ignored when announced and passed over in a batch |
| NodeRules.ExtendRule | cmd/node/main.go:238-267 | one round of the extension loop: which blocks are passed over, slash and go on, end the loop, or are taken over and passed on |
| NodeRules.BadBatchIgnored | cmd/node/main.go:289-296 | a batch that does not extend the tip and is unlinked or invalid behind its first block is ignored |
| NodeRules.ReorgRule | cmd/node/main.go:289-310 | a batch from genesis, linked and valid from its second block on, replaces chain, ledger and validators exactly when it ends above the tip, sends nothing, and is otherwise ignored |
| NodeSync.BatchExtendsTip | cmd/node/main.go:236-238 | a batch whose first block names the tip as parent goes through the extension loop with the validator set read once |
| NodeRules.ProduceRule | cmd/node/main.go:531-570 | a tick produces exactly when a transaction is pending and it is the node's turn, or there are no validators; the block carries the oldest pending transactions, at most 100, and is announced |
| NodeRules.ProducedBlockSpreads | cmd/node/main.go:316-347 | what a producer announces, a node on the same chain with the same validators takes over and passes on, and both then have the same tip, height, balances and nonces |
| NodeRules.SyncFromScratch | cmd/node/main.go:269-287 | a node with nothing yet that receives a batch from a valid genesis block ends on its longest prefix of valid, linked blocks, with their replay as ledger and the genesis validators |
| NodeRules.BadGenesisIgnored | cmd/node/main.go:269-274 | a batch whose first block fails validation leaves an empty node empty |
| NodeRules.RestartRule | cmd/node/main.go:144-196 | a restart keeps chain and state and forgets the pool and the double-sign table |
| NodeSound.UnfundedFeeIsCredited | state/state.go:254-273 | a block whose one transaction is skipped changes exactly the producer's balance, by that transaction's fee |
| NodeEvidence.SlashingNeedsEvidence | cmd/node/main.go:245-256 | after any run the validator set is a subsequence of the genesis set, and whoever is missing had two received valid blocks of one height with different hashes |
| NodeEvidence.SetShrinksUntilReorg | cmd/node/main.go:323-345 | between reorganisations the validator set only shrinks, keeping its order, and right after one it is the genesis set |
| NodeEvidence.TableIsWriteOnce | cmd/node/main.go:245-256 | an entry of the double-sign table never changes until the node restarts |
| NodeEvidence.AtMostOneBlockPerHeightAndValidator | cmd/node/main.go:239-267 | from any moment on until the next restart, the node takes over at most one received block per height and validator, across reorganisations |
| NodeEvidence.AnnouncedAreTaken | cmd/node/main.go:261-267 | the blocks a received message adds to the chain are exactly those the node announces, which the row above counts |
| NodeLeaders.LeaderRuleIff | cmd/node/main.go:291-299 | over every run, each block that enters the history is by the leader of the validator set read at that step, if there is one, exactly when every batch adopted by reorganisation keeps that rule from its second block on |
| NodeLeaders.TurnRuleIff | consensus/consensus.go:48-56 | the same in terms of turns: the block at height q * k + i is by the validator at index i of the k in the set |
| NodeLeaders.EnteringLed | cmd/node/main.go:239-244 | extension, announcement and production only add blocks by the leader of the set read at that step |
| NodeLeaders.WrongLeaderAdopted | cmd/node/main.go:291-313 | a block by the wrong validator is ignored by a fresh node when announced alone and becomes its tip in a batch behind genesis |
| NodeSync.SyncFromPeer | cmd/node/main.go:215-268 | B asks A, whose contiguous chain extends B's, for what follows; A answers with exactly those blocks up to the limit; B's chain stays a prefix of A's whatever B declines and reaches the end of the answer if nothing is declined, with the accounts of that prefix |
| NodeSync.CaughtUp | cmd/node/main.go:215-268 | if nothing is declined and the answer reaches A's tip, B has A's tip, height, balances and nonces |
| NodeSync.LongestChainRuleIff | cmd/node/main.go:287-313 | a node that asks a higher peer for its contiguous chain from genesis ends up on that chain if it has at most 10000 blocks, otherwise on its first 10000 blocks if its own height is below 9999, and otherwise keeps its own lower chain; so the rule holds if and only if the chain has at most 10000 blocks |
| NodeSync.LongestChainFetched | cmd/node/main.go:287-313 | from announcement to adoption: a node that receives a run of a higher peer's chain it cannot attach changes nothing and sends exactly one request, the peer answers that request with one batch, and handling it gives the chain of the row above |
| NodeSync.BehindAsks | cmd/node/main.go:289-312 | a linked, valid run that neither starts at genesis nor extends the tip changes nothing, and the whole chain is asked for, from height 0 with a limit of 10000, exactly when the run ends above the tip |
| NodeGrowth.EveryLengthReachable | cmd/node/main.go:316-347 | a node without validators that hears of n empty blocks one after the other is on their contiguous chain of n + 1 blocks, for every n |
| NodeGrowth.LongChainNotAdopted | cmd/node/main.go:287-313 | a node that has heard of n >= 10000 blocks and one, fresh or not, that has heard of fewer: the second does not end up on the first one's chain when it fetches it, and which chain it does end up on |
| NodeSync.SameTipSameLedger | cmd/node/main.go:228-347 | two nodes with one genesis and one tip hash, in any runs in which no touched block hashes to zero, whatever first blocks they adopted: colliding texts are computed, or their chains share every block after the first of the shorter one; their ledgers are then equal if the first blocks have one producer and the same transfers or if the ledgers agreed where the shared blocks begin, and while both give the same verdicts a balance agrees exactly when it agreed there |
| NodeSync.SameTipDifferentLedger | cmd/node/main.go:291-313 | two fresh nodes that adopt batches ending in one block, one from genesis and one from a block that only claims its hash: same tip, no collision, different ledgers |
| NodeSync.ValidRunsAgree | cmd/node/main.go:228-347 | if both only adopted batches with valid first blocks, one tip hash means the same chain content and the same ledger, or a collision |
| NodeSync.TailCollision | core/types.go:65-83 | two linked chains with one tip hash, valid but for their first blocks, share all blocks after the first of the shorter one, or two colliding texts are returned |
| NodeSync.ChainCollision | core/types.go:65-83 | two valid linked chains with one tip hash have the same content block by block, or two colliding texts are returned |
| NodeHeights.ReachableContiguous | core/chain.go:170-211 | if the blocks a run touches carry heights as produced, the reached chain is the adopted one and contiguous, its height is its length less one, and up to 10000 blocks it is served whole |
| NodeHeights.HonestHeightsSuffice | cmd/node/main.go:291-299 | honest heights are a second sufficient condition for the unchecked hashes to be apart at every step |
| NodeHeights.ProducedHeightsRise | cmd/node/main.go:531-570 | with honest heights the blocks a node produces have strictly rising heights over every run, across reorganisations and restarts |
| NodeHeights.SecondBlockOfOneHeight | cmd/node/main.go:316-347 | without honest heights a node that starts without validators takes over a block of lower height on its own block and then produces a second block of one height |
| NodeHeights.StartIsFresh | cmd/node/main.go:144-159 | start-up without eligible validators gives the state the row above starts from |
| NodeSignatures.StepIgnoresSignatures | cmd/node/main.go:215-347 | every step commutes with erasing block signatures: no state, verdict or message depends on one except by storing it and passing it on |
| NodeSignatures.RunIgnoresSignatures | cmd/node/main.go:215-347 | every run without the block signatures ends in the same state but for the signatures of stored blocks |
| NodeSignatures.UnsignedBlocksSlash | cmd/node/main.go:323-335 | two unsigned blocks of one height that name the leader remove it from the validator set of a fresh node |
| Ledger.SupplyLaw | state/state.go:254-273 | for every block and sheet, over the naturals: the sum of balances grows by the fees of exactly the skipped transactions and by 2^64 per applied overflowing cost, and shrinks by 2^64 per overflowing credit of a receiver, of the fee total or of the producer |
| Ledger.ConservationIff | state/state.go:254-273 | every block: the supply is conserved if and only if skipped fees plus overflowing costs balance overflowing credits |
| Ledger.FittingConservationIff | state/state.go:254-273 | when supply and fees fit into uint64: conserved if and only if every skipped transaction is free and as many costs as credits overflow; if no cost overflows, if and only if every skipped transaction is free |
| Ledger.ChainSupplyLaw | state/state.go:254-273 | the supply after any chain is the initial one plus exactly what its blocks add |
| Documented.OverflowingCostMints | state/state.go:257-265 | a transaction with amount and fee 2^63 is admitted by an empty pool, is applied, and its block adds exactly 2^64 to the supply |
| Documented.VerdictsAgreeIff | state/state.go:254-265 | the code and the documented checks of signature, nonce, balance and fee give the same verdict on every transaction of a list if and only if every transaction the code finds funded is signed, pays the minimum fee, has a cost that fits and carries the stored nonce plus the number of its sender's transactions applied before it |
| Documented.RepeatedTransactionApplies | state/state.go:254-265 | one transaction listed twice in a block by a sender who can pay twice is applied twice, where the documents skip the second |
| Ledger.ReplayAgreesIff | state/state.go:254-273 | while two states give the same verdicts on common blocks, a balance agrees afterwards exactly when it agreed before |
| Ledger.BalanceDifferenceHeals | state/state.go:256-265 | with different verdicts a balance that differed can agree after a block, so equal verdicts are needed above |
| Ledger.NonceDifferenceHeals | state/state.go:241-265 | a nonce that differed can agree after a block with equal verdicts, when it restarts, so the law above is one of balances |
| Ledger.ChainKeepsSupply | state/state.go:254-273 | along a chain with nothing skipped and no overflowing cost the supply is the initial one at every height, and no machine addition wraps |
| Ledger.NonceLaw | state/state.go:241-265 | with n the number of the owner's transactions in the block that find enough on its account: its nonce rises by n modulo 2^64 when the first transaction that names it is sent by it, to whomever; becomes n when that one is sent to it by another address and n > 0; and is otherwise unchanged |
| Ledger.SelfTransferCounts | state/state.go:241-265 | a transaction to oneself raises the nonce by one, whatever it was |
| Ledger.RoleIff | state/state.go:241-252 | the role that decides whether a nonce is loaded is that of the first transaction that names the address, sending before receiving |
| Ledger.BalanceLaw | state/state.go:254-273 | every balance after a block, modulo 2^64: the one before it, less what its owner pays and plus what it gets in applied transactions, plus all fees of the block for the producer |
| Ledger.SkippedIff | state/state.go:257-262 | a transaction is skipped exactly when its sender then holds less than amount plus fee modulo 2^64 |
| Ledger.DocumentedNonceLawIff | state/state.go:241-265 | the documented nonce rule holds at an address exactly unless it has a nonzero stored nonce, the first transaction that names it is sent to it by another address, and it then sends an applied one |
| Ledger.ReceiverNonceRestarts | state/state.go:241-265 | a two-transaction block after which an address with a nonzero nonce has nonce one |
| Ledger.NonceFieldIgnored | state/state.go:236-282 | applying a block depends only on its producer and on who pays whom how much at what fee |
| Ledger.SameHashAppliesAlike | core/types.go:117-126 | two valid blocks with one hash transform every ledger state identically, or two colliding texts are computed |
| Ledger.AbsentUntouched | state/state.go:239-252 | an address that no transaction names keeps its balance and has no applied transaction |
| DefaultConfig.FixedSupply | config/config.go:57-80 | from the default allocation, along any chain with nothing skipped and no overflowing cost, balances sum to the total supply at every height and nothing wraps |
| DefaultConfig.DefaultSupply | config/config.go:73-77 | the default allocation hands out exactly 21 billion coins |
| DefaultConfig.DefaultBalances | config/config.go:57-77 | 10, 5 and 6 billion coins for the three well-known addresses |
| DefaultConfig.DefaultConsistent | config/config.go:57-77 | the default allocation has one meaning |
| StateStore.State.ApplyBlock | state/state.go:236-282 | preload, in-memory pass, fee credit and one batch write leave the state of the plain sequential ledger, stakes and list untouched |
| StateStore.State.Preload | state/state.go:239-252 | the balance cache holds exactly the addresses the block names, the nonce cache exactly the stored nonces of addresses first seen as sender |
| StateStore.RunCached | state/state.go:254-266 | the pass over the caches ends with the plain ledger's balance at every cached address, its fee total and its working nonces |
| StateStore.RunOne | state/state.go:256-265 | one transaction on the caches agrees with the plain transfer at every cached address, self-transfers included |
| StateStore.State.CreditFees | state/state.go:267-273 | the producer is credited on its balance after the transactions, loaded first if it was not cached |
| StateStore.State.Write | state/state.go:274-281 | whatever the map iteration order, the batch changes exactly the cached words and not the validator list |
| StateStore.BatchSheet | state/state.go:274-281 | one put per entry in any order leaves each entry's value in its slot and every other slot and the list alone |
| StateStore.State.ApplyGenesis | state/state.go:120-152 | accounts are written in some order of the allocation, eligible validators in list order, the list replaced only if one is eligible |
| StateStore.State.ResetAndReplay | state/state.go:307-328 | the new state depends on the arguments only: genesis on an empty store followed by the blocks |
| StateStore.State.SlashValidator | state/state.go:203-233 | stake zero and the address text dropped from the list, nothing else; no change when there is no list |
| StateStore.State.GetValidatorSet | state/state.go:161-189 | the listed addresses that parse and have a positive stake, in order |
| StateStore.State.GetBalance | state/state.go:62-77 | the stored balance, zero for an unknown address |
| StateStore.State.GetNonce | state/state.go:80-95 | the stored nonce, zero for an unknown address |
| StateStore.KeysNeverClash | state/state.go:16-60 | no two slots of the flat store share a key, and none is the validator list's |
| StateStore.KeySpelling | state/state.go:16-60 | keys are the prefixes b:, n: and vs: followed by the address, and validator_list |
| StateStore.PutWord | state/state.go:98-117 | writing one word changes what is read at that slot and at no other |
| StateStore.ReadWordValue | state/state.go:98-117 | a word written to the store is read back |
| Validators.SlashRemovesExactly | state/state.go:203-233 | the set after slashing an address is the old set without it, in order, whatever letter case the stored list uses, and accounts are untouched |
| Validators.OneMeaningIffConsistent | state/state.go:120-133 | an allocation gives one result over all iteration orders if and only if keys that name one address agree on the amount |
| Validators.TwoSpellings | state/state.go:120-133 | an allocation with two spellings of one address that gives different accounts in two iteration orders |
| Validators.OrderIrrelevant | state/state.go:120-133 | any iteration order of a consistent allocation gives the same accounts |
| Validators.GenesisRestoresSet | state/state.go:134-150 | applying genesis again restores the genesis validator set, or leaves the set alone if none is eligible |
| Validators.RoundRobinIsFair | consensus/consensus.go:48-56 | over any k consecutive heights the leaders are the k listed validators in turn from index h mod k on, so each leads as often as it is listed |
| Validators.LeaderAt | consensus/consensus.go:48-56 | at height q * k + i the validator at index i leads |
| Validators.SameLeaders | consensus/consensus.go:25-56 | on a fresh state the set from the genesis file and the set read from the state list the same addresses and name the same leader, the one at index height mod k, at every height |
| Validators.BuildSet | consensus/consensus.go:25-40 | the loop collects exactly the eligible validators in order |
| Validators.NewSetMembers | consensus/consensus.go:25-40 | in the set is exactly every listed validator whose address parses and whose stake is at least the minimum |
| Validators.AllocatedAmount | state/state.go:120-133 | under a consistent allocation an address starts with the amount of any key that spells it and nonce zero |
| ChainStore.NoRepeats | core/chain.go:170-200 | a chain linked to a zero parent in the store repeats no block, whatever the hash function |
| ChainStore.ChainUnique | core/chain.go:180-200 | the tip determines the chain |
| ChainStore.ChainAnswers | core/chain.go:170-211 | on every chain the walk back ends and finds the blocks from where it stops up to the tip |
| ChainStore.FoundIsRun | core/chain.go:182-211 | on any store: what the walk finds ascends along parent links to the block it started from, holds nothing below the asked height, and leaves nothing out |
| ChainStore.NotFoundIsGap | core/chain.go:184-187 | the walk reports an error only where a parent link, or the tip, leads out of the store |
| ChainStore.ChainExtended | core/chain.go:214-232 | storing a new block on the tip and moving the tip to it extends the chain by that block |
| ChainStore.ServedContiguous | core/chain.go:170-211 | with contiguous heights the answer is exactly the blocks from the asked height on, min(max, Height-from+1) many, ascending |
| ChainStore.WholeChainIff | core/chain.go:235-237 | the blocks from genesis to the tip are the whole chain exactly when the height is below 10000 |
| ChainStore.Chain.CollectHashes | core/chain.go:182-200 | the walk back reports a block that is not stored, or collects the hashes of the blocks it finds from the tip down |
| ChainStore.Chain.LoadReversed | core/chain.go:205-211 | loading hashes in reverse gives the blocks in ascending order |
| ChainStore.Chain.GetBlocksFrom | core/chain.go:170-211 | walk, cut and reversal together answer the lowest max blocks of the walk, nothing, or an error |
| ChainStore.Chain.BlocksFromGenesisToTip | core/chain.go:235-237 | the same from height zero with the default limit |
| Mempool.RemovedIsFilter | mempool/mempool.go:90-107 | removal is a stable filter: a subsequence with none of the included hashes and every other transaction as often as before |
| Mempool.RemoveKeepsTidy | mempool/mempool.go:90-107 | removal keeps the bound and the distinct hashes |
| Mempool.AddKeepsTidy | mempool/mempool.go:38-75 | an admitted transaction keeps the bound and the distinct hashes |
| Mempool.Pool.Check | mempool/mempool.go:41-73 | the error of the first failing check; which checks these are is said by the two rows below |
| Mempool.AdmittedIff | mempool/mempool.go:38-75 | admitted if and only if there is room, the signature is valid, the fee is at least 100, nonce and balance match the state if there is one, and no pooled transaction has the same hash |
| Mempool.RefusalOrder | mempool/mempool.go:41-64 | each error is reported exactly when its check fails and all earlier ones pass |
| Mempool.Pool.Add | mempool/mempool.go:38-75 | appends an admitted transaction, otherwise reports why and changes nothing |
| Mempool.Pool.Compact | mempool/mempool.go:99-106 | filtering in place over the array being read leaves exactly the kept transactions in order |
| Mempool.Pool.Remove | mempool/mempool.go:90-107 | the pool without the included hashes, invariant kept |
| Mempool.Pool.Pending | mempool/mempool.go:78-87 | a fresh copy of the oldest n transactions, or of all, so later changes of the pool do not reach it |
| Merkle.ComputeRoot | crypto/merkle.go:5-24 | the loop that builds each level computes the recursive root |
| Merkle.LevelPairs | crypto/merkle.go:13-21 | each pair is hashed left before right, an odd last element with itself |
| Merkle.SmallRoots | crypto/merkle.go:5-24 | the roots of lists of up to three hashes, written out |
| Merkle.Collision | crypto/merkle.go:5-24 | from two different lists of one length with one root, two colliding texts are computed |
| Merkle.PaddedListHasSameRoot | crypto/merkle.go:11-22 | repeating the last of an odd number of hashes, three or more, keeps the root, so equal length is needed above |
| Blocks.IdentityCollision | core/types.go:65-126 | two valid blocks with one hash and different content give two colliding texts |
| Blocks.NewBlock | core/types.go:99-114 | a new block passes validation and carries the height, time, parent, producer and transactions it was given, unsigned |
| Blocks.SigningKeepsValidity | core/types.go:117-126 | signing changes neither validity nor hashed content |
| Blocks.GenesisBlock | core/genesis.go:16-27 | the genesis block passes validation, at height zero, without parent or transactions |
| Blocks.BuildBlock | core/types.go:94-114 | assigning root and then hash step by step gives the new block |
| Blocks.ValidateBlock | core/types.go:117-126 | true if and only if the root is that of the block's transaction hashes and the hash is that of its height, time, parent, root, producer and transaction hashes |
| Blocks.TxHashAt | core/types.go:23-33 | each transaction hash covers sender, receiver, amount, fee and nonce |
| Blocks.TxCollision | core/types.go:23-33 | two transactions with one hash agree in these fields, or two colliding texts are returned |
| Blocks.ComputeTxHashes | core/types.go:85-92 | the loop collects the hash of every transaction in order |
| Crypto.ParseAddressHex | crypto/signature.go:40-51 | an address survives its hexadecimal text |
| Hex.EncodeInjective | crypto/hash.go:33-33 | different byte strings have different hexadecimal text, so text keys of the double-sign table stand for addresses and hashes |
| Hex.EncodeText | crypto/hash.go:33-33 | hexadecimal text is lower case, high half of each byte first |
| Words.WordRoundTrip | state/state.go:98-117 | a uint64 survives eight big-endian bytes |
| Words.BigEndianAt | state/state.go:98-117 | byte i of n is the one of weight 256^(n-1-i): most significant first |
| Words.WrapIsMod | state/state.go:264-264 | the reduction used for repeated uint64 increments is the remainder modulo 2^64 |
| Node.Node.CheckDoubleSign | cmd/node/main.go:245-256 | the nested text table records the first hash per height and validator and reports a conflict exactly when another one is there |
| Node.Node.IsAcceptable | cmd/node/main.go:239-244 | valid, not stored, and by the leader of its height unless the set is empty |
| Node.Node.Weigh | cmd/node/main.go:239-256 | drops an unacceptable block, slashes on a conflict, otherwise records the block, as the machine does |
| Node.Node.ExtendOne | cmd/node/main.go:238-267 | one round of the extension loop takes the verdict and the state of the machine |
| Node.Node.ExtendTipBy | cmd/node/main.go:236-268 | the whole loop, with the validator set read once, ends in the machine's state with the machine's announcements |
| Node.Node.SyncFromNothing | cmd/node/main.go:269-287 | the sync-from-empty loop ends in the machine's state |
| Node.Node.IsLinkedBatch | cmd/node/main.go:289-296 | true exactly when links and validity hold from the second block on |
| Node.Node.Reorganise | cmd/node/main.go:299-309 | writing all blocks, replaying, moving the tip and cleaning the pool give the machine's reorganised state |
| Node.Node.Classify | cmd/node/main.go:229-313 | the branch the machine takes |
| Node.Node.HandleBlocks | cmd/node/main.go:228-315 | a Blocks message takes exactly the machine's step, messages included |
| Node.Node.HandleNewBlock | cmd/node/main.go:316-347 | a NewBlock message takes exactly the machine's step |
| Node.Node.HandleTx | cmd/node/main.go:348-355 | a NewTx message takes exactly the machine's step |
| Node.Node.BuildProposal | cmd/node/main.go:533-559 | the block the machine proposes, or none |
| Node.Node.Produce | cmd/node/main.go:531-570 | a producer tick takes exactly the machine's step |
| Node.Node.Serve | cmd/node/main.go:215-227 | a GetBlocks message is answered as the machine answers it, errors unanswered |
| Node.Node.constructor | cmd/node/main.go:144-165 | start-up on an empty data directory: genesis in some iteration order and the genesis block as tip; the machine's start state when the allocation has one meaning |

## Left out

- Transport, peers, message framing, JSON syntax and malformed messages (p2p/): messages are datatypes, and a message that does not decode is ignored before it reaches the handlers; null blocks inside a decoded batch are not modelled.
- HTTP handlers, command-line flags, key generation, send and load clients: user interface.
- SHA-256 and ECDSA P-256: library calls; the hash and the signature check are parameters, and the producer's signature is an input of the tick.
- Storage failures, temporary files and crash recovery: writes succeed, so the ignored errors at cmd/node/main.go:261-265 and a failed append after an applied block are outside the invariants. A stored validator list that is not a JSON list is not modelled.
- Locks and goroutines: steps are atomic. `SetTip` calls `Save`, which takes the lock again, while holding it (core/chain.go:215-219 against 61); only the data effect of `SetTip` is modelled.
- Wall-clock time, tickers and liveness: the time of a tick is an input, and no code decides liveness.
- Heights: extension does not check that a block's height follows its parent's, so contiguous heights are a hypothesis of `NodeSync.SyncFromPeer` and `NodeSync.LongestChainRuleIff`, derived in `NodeHeights.ReachableContiguous` from how blocks are produced.
- `GetBlockByHeight`: a directory scan that may see blocks left over by a reorganisation.
- Economic claims of the documents: nothing implements them.
- ChainStore.Chain.GetBlocksFrom: requires that the walk back from the tip ends within some number of rounds; where it does not, on a cycle of parent links above the asked height, the source does not return. `NodeSound.LedgerIsReplayOfChain` and `ChainStore.ChainAnswers` exclude that for runs with hashes apart.
- ChainStore.Chain.CollectHashes: the same requirement, since its loop is the one that would not end.
- ChainStore.Chain.BlocksFromGenesisToTip: the same requirement, for the same reason.
- Node.Node.Serve: the same requirement, for the same reason.
- NodeSync.SameTipSameLedger: exact for balances and only while both nodes give the same verdicts on the shared blocks; beyond that a difference can heal (`Ledger.NonceDifferenceHeals`, `Ledger.BalanceDifferenceHeals`).
- Node.Node.constructor: the machine's start state is promised for a consistent allocation only, because otherwise start-up has no single result.
- Mempool.Pool.Pending: copies transactions where the source copies references to them; the pool never changes a transaction it holds.
