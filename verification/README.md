# Mainsail in Dafny

Mainsail is a proof-of-stake blockchain node. This project models the parts of it that have to be right for the chain to
stay one chain, and proves what they promise. `dafny verify dfyconfig.toml` checks all of it.

**Consensus.** Validators agree on one block per height with a Tendermint-style protocol: propose, prevote, precommit,
round after round. A run of the network is an arbitrary sequence of events at an arbitrary number of nodes: messages are
delivered, delayed, lost or reordered, timeouts fire, nodes crash at any point and restart from their store, and fewer
than a third of the validators of every height are Byzantine and sign whatever they like. Votes are keyed by the whole
chain prefix they build on, and the validator set is a function of that prefix, so that the agreement theorem covers all
heights and every change of the validator set at once. The rules are functions (`ConsensusRules`), the network a
transition system over them (`Network`), the invariant and its consequences are `Safety`, `Agreement` and `Validity`,
and the objects of the node are classes whose methods are proved to perform only actions of that system
(`ConsensusService`, `Bootstrapping`, `RoundStates`). `Locks` is the promise-based lock the handlers run under.

**Transaction pool and block production.** `SenderPool`, `PoolService` and `PriorityQuery` are the pool, its mirror in
the storage, and the price-ordered list the forger reads in batches; `PoolRestart` is what a restart makes of the pool.
`BlockExecution` is the forger and the processor over one abstract deterministic EVM.

**Codecs.** `ByteBuffers`, `Serializer`, `BlockCodec` and `ProposalPayload` are the binary formats of blocks, messages,
proposals and commits; `Rlp` and `TransactionCodec` the RLP form of transactions.

**Configuration.** `Milestones`, `Rounds` and `Timestamps` are the milestone cursor, validator rounds and the minimal
block timestamp.

Where the code does not do what one would expect of it in every case, the model does what the code does; a lemma shows an
input on which the expectation fails, and another one states exactly when it holds:

- a re-entrant `runExclusive` breaks the lock (`Locks.ReentranceIsReachable`, `Locks.ReentranceBreaksExclusion`,
  `Locks.ExclusiveRunsAlone`);
- a replacement the sender cannot pay for may be dropped together with what it replaced
  (`SenderPool.ReplacementIsDropped`, `SenderPool.FallbackKeepsIffAdmitted`);
- a transaction that was replaced in place comes back from the storage behind its followers, which are lost
  (`PoolRestart.RestartLosesFollower`, `PoolRestart.ReplacementBreaksOrder`, `PoolRestart.RestartRestores`);
- the forger looks neither at the size nor at the configured version of the block it makes
  (`BlockExecution.ForgeOversized`, `BlockExecution.ForgeForVersionTwo`, `BlockExecution.ForgeBlock`);
- the RLP decoder accepts inputs that are not written back the same: more than ten fields, an empty tenth field, lengths
  of more than four bytes, and numbers from 2^53 on (`TransactionCodec.TenFieldsAreDropped`, `Rlp.LongLengthIsRead`,
  `TransactionCodec.LargePriceIsRefused`, `TransactionCodec.TransactionCanonical`);
- a payload is accepted with bytes nobody reads behind its lock proof (`ProposalPayload.PaddingIsIgnored`,
  `ProposalPayload.PayloadCanonical`);
- a milestone that repeats the number of validators, or a second one for the same height, can hide a change inside a
  round from the configuration check (`Rounds.RepeatedNumberHidesMisfit`, `Rounds.EqualHeightsHideMisfit`,
  `Rounds.AcceptedHasRounds`);
- two milestones for one height can give a round another number of validators than the milestone that holds there
  (`Rounds.EqualHeightsDisagree`, `Rounds.RoundsHaveValidators`).

What is taken for granted, all of it outside the modelled code: signatures cannot be forged, a validator's
key is held by one node, and a hash names one block;
accepting a proposal includes verifying its lock proof, and a downloaded commit carries a verified proof; what was
flushed to the consensus store and the block database is there after a crash; the EVM is deterministic, uses no more gas
than the limit of a transaction, and a failed transaction leaves no trace in it; hexadecimal text stands for its bytes.

## Model

| member | source | states |
|---|---|---|
| `Quorum.MajoritiesShareCorrect` | packages/blockchain-utils/source/is-majority.ts:1 | two +2/3 majorities of one validator set share a validator that is not Byzantine, if fewer than a third are |
| `Quorum.MinorityHoldsCorrect` | packages/blockchain-utils/source/is-minority.ts:1 | more than a third of the validators include one that is not Byzantine |
| `Quorum.DisjointNotBothMajority` | packages/blockchain-utils/source/is-majority.ts:1 | two disjoint groups of validators are never both +2/3 |
| `Quorum.MajorityIffTolerated` | packages/blockchain-utils/source/is-majority.ts:1 | a set is +2/3 if and only if fewer than a third of the validators are outside it |
| `Quorum.CorrectAreMajority` | packages/blockchain-utils/source/is-majority.ts:1 | all validators but fewer than a third of them are always enough |
| `Quorum.SplitsIffLess` | packages/blockchain-utils/source/is-majority.ts:1 | quorums of a size can miss each other, but for fewer than a third faulty validators, if and only if they are less than two thirds: no smaller threshold is safe |
| `Quorum.MinorityIffMoreThanThird` | packages/blockchain-utils/source/is-minority.ts:1 | a minority is more than every number that is at most a third |
| `Quorum.CorrectShare` | packages/blockchain-utils/source/is-majority.ts:1 | a +2/3 set without its faulty members is still more than a third |
| `Agreement.ChainsAgree` | packages/consensus/source/consensus.ts:301-513 | agreement: after every run, of any two correct nodes one committed chain is a prefix of the other, whatever rounds the blocks were committed in, whatever Byzantine validators sent and whenever nodes crashed |
| `Agreement.OneDecision` | packages/consensus/source/consensus.ts:466-513 | on one chain only one block ever gathers +2/3 precommits, in whichever rounds |
| `Agreement.DecisionIsFinal` | packages/consensus/source/consensus.ts:321-336 | by induction over rounds: once +2/3 precommitted a block, no later round of that height gathers +2/3 prevotes for another one |
| `Agreement.OnePolkaPerRound` | packages/consensus/source/round-state.ts:246-252 | two +2/3 majorities of one round never name different blocks |
| `Agreement.NeverEquivocates` | packages/consensus/source/consensus.ts:688-734 | over every run with crashes at any point, a correct validator signs at most one prevote and one precommit per height and round |
| `Agreement.PositionsGrow` | packages/consensus/source/consensus.ts:204-216 | along every run a chain only grows, and within a height the stored round and step, and the locked round, never go back |
| `Agreement.RecoversLock` | packages/consensus/source/bootstrapper.ts:30-144 | a node that was down for however long restarts with the round, step, valid value and locked block it had before the crash, or refuses to start; its store is never ahead of its chain |
| `Agreement.ReproposalsAreWellFormed` | packages/consensus/source/consensus.ts:652-671 | always lockedRound ≤ validRound ≤ round, and a proposal built from the valid value while prevoting or proposing has validRound < round, is paired with a lock proof, the proof aggregates, and it verifies at every node |
| `Agreement.SkippedRoundsAreLive` | packages/consensus/source/consensus.ts:532-539 | a node skips to a higher round only after a correct validator voted there |
| `Validity.VotesAreValid` | packages/consensus/source/consensus.ts:301-425 | over every run with crashes at any point, a correct validator prevotes or precommits a block only if its own node processed a proposal of that block on that chain and found it valid |
| `Validity.CommittedIsValid` | packages/consensus/source/consensus.ts:466-513 | every block any node committed was found valid, on the chain below it, by the node of a correct validator |
| `Validity.CommittedIsTimely` | packages/consensus/source/consensus.ts:338-350 | every committed block was prevoted in some round by more than a third of the validators, all correct, each of whose nodes found it not to be from the future then |
| `Validity.ProposalsAreCurrent` | packages/consensus/source/bootstrapper.ts:80-101 | in every run, whatever an old store holds, a node only holds proposals for the block after its chain |
| `Safety.RunKeeps` | packages/consensus/source/consensus.ts:301-605 | the invariant behind all of this holds after every run: the store describes the position in memory, every signed vote is at or below it, locks and valid values are backed by +2/3 prevotes, precommits come with +2/3 prevotes, and a later prevote against a lock comes with +2/3 prevotes in between |
| `Safety.PerformKeeps` | packages/consensus/source/consensus.ts:301-605 | every single action of a node keeps that invariant for the node |
| `Safety.RestartKeeps` | packages/consensus/source/bootstrapper.ts:30-161 | restarting from any store a run can leave behind keeps it too |
| `ConsensusService.ActionsAreRuns` | packages/consensus/source/consensus.ts:153-190 | the actions a method of the node performs are a run of the whole network in which only that node moves, so every theorem about runs applies to it |
| `ConsensusService.StorageService.constructor` | packages/consensus-storage/source/service.ts:36-39 | the store opens with what a crash left behind and the block number recorded there |
| `ConsensusService.StorageService.Prepare` | packages/consensus-storage/source/service.ts:103-115 | the first write of a higher block number drops every record of the block before it |
| `ConsensusService.StorageService.PutState` | packages/consensus-storage/source/service.ts:56-68 | the position replaces the stored one, records of an older block are gone |
| `ConsensusService.StorageService.PutMessage` | packages/consensus-storage/source/service.ts:76-83 | the message is stored under its round, validator and type, records of an older block are gone |
| `ConsensusService.Consensus.PersistState` | packages/consensus/source/consensus.ts:732-734 | the stored position is the position in memory |
| `ConsensusService.Consensus.SignVotes` | packages/consensus/source/consensus.ts:688-730 | every validator the node holds that has no such vote in the round signs it, nobody else does and nothing else is signed, each vote is stored, and a crash may fall between any two of these steps |
| `ConsensusService.Consensus.Decide` | packages/consensus/source/consensus.ts:315-336 | a vote is cast only for the position that was stored before |
| `ConsensusService.Consensus.OnProposal` | packages/consensus/source/consensus.ts:301-351 | exactly when a fresh proposal of the current round is processed while proposing, the node prevotes, once: for its block if processing succeeded, it is not from the future and nothing is locked, else for nil |
| `ConsensusService.Consensus.OnProposalLocked` | packages/consensus/source/consensus.ts:353-390 | exactly when a re-proposal of the current round is processed while proposing, the node prevotes: for its block if processing succeeded and the lock is not newer than its valid round or on the same block, else for nil |
| `ConsensusService.Consensus.OnMajorityPrevote` | packages/consensus/source/consensus.ts:392-425 | on +2/3 prevotes for a valid block the node locks it, takes it over as valid value and precommits it while prevoting, only takes it over while precommitting, does so once per round, and else signs nothing |
| `ConsensusService.Consensus.OnMajorityPrevoteNull` | packages/consensus/source/consensus.ts:439-452 | on +2/3 nil prevotes it precommits nil and keeps its lock and valid value |
| `ConsensusService.Consensus.OnMajorityPrecommit` | packages/consensus/source/consensus.ts:466-513 | on +2/3 precommits in any round the node appends the block if it is valid and starts the next height, and otherwise only remembers that it looked |
| `ConsensusService.Consensus.CommitBlock` | packages/consensus/source/consensus.ts:496-512 | a commit appends exactly the block, forgets round states, lock and valid value, and proposes in round 0; nothing is signed |
| `ConsensusService.Consensus.OnMinorityWithHigherRound` | packages/consensus/source/consensus.ts:532-539 | the node moves up to a higher round with more than a third of the votes, and never down |
| `ConsensusService.Consensus.OnTimeoutPropose` | packages/consensus/source/consensus.ts:541-562 | a timeout of the current position prevotes nil, a stale one signs nothing |
| `ConsensusService.Consensus.OnTimeoutPrevote` | packages/consensus/source/consensus.ts:564-586 | a timeout of the current position precommits nil, a stale one signs nothing |
| `ConsensusService.Consensus.OnTimeoutPrecommit` | packages/consensus/source/consensus.ts:588-605 | a timeout of the current round moves on, to the next round if that holds nothing yet; a stale one does nothing |
| `ConsensusService.Consensus.ProcessProposal` | packages/consensus/source/consensus.ts:736-758 | a proposal is processed once, and succeeds if and only if it can be read and lock proof and block are valid |
| `ConsensusService.Consensus.StartRound` | packages/consensus/source/consensus.ts:204-262 | entering a round stores the new position before any rule runs, then leaves no rule of that round to fire; in a round that holds nothing yet it is all that happens |
| `ConsensusService.Consensus.ApplyProposalRules` | packages/consensus/source/consensus.ts:158-161 | afterwards the proposal is processed and neither proposal rule can fire |
| `ConsensusService.Consensus.ApplyPrevoteRules` | packages/consensus/source/consensus.ts:163-173 | afterwards neither prevote rule can fire |
| `ConsensusService.Consensus.ApplyRules` | packages/consensus/source/consensus.ts:153-190 | running all rules on a round state ends, moves only as the network model allows, does nothing on an empty one, and leaves no rule to fire unless it committed a block |
| `ConsensusService.Consensus.HandleCommitState` | packages/consensus/source/consensus.ts:192-202 | a downloaded commit of the current height with a valid block is appended, any other one ignored |
| `Bootstrapping.RecordsAreStored` | packages/consensus/source/bootstrapper.ts:80-101 | adding the stored records one by one, in any order, gives exactly the tallies the store holds |
| `Bootstrapping.LoadRounds` | packages/consensus/source/bootstrapper.ts:80-101 | the rebuilt round states are those tallies; records of another block are left out and no record collides |
| `Bootstrapping.LoadProposals` | packages/consensus/source/bootstrapper.ts:84-86 | every stored proposal of the block is in its round |
| `Bootstrapping.LoadMessages` | packages/consensus/source/bootstrapper.ts:88-90 | every stored vote of the block is counted once in its round |
| `Bootstrapping.GetProvenRoundState` | packages/consensus/source/bootstrapper.ts:120-144 | a lock or valid value comes back only with its proposal and its +2/3 prevotes in the store |
| `Bootstrapping.RestoreValue` | packages/consensus/source/bootstrapper.ts:103-118 | a round that was not stored gives no value, a stored one gives its value or an error |
| `Bootstrapping.Start` | packages/consensus/source/bootstrapper.ts:30-61 | the restored node is the one the store describes; with a store ahead of the chain it is cleared and the node starts to propose in round 0 |
| `RoundStates.CountedAgrees` | packages/consensus/source/round-state.ts:370-384 | counting a vote keeps every per-hash counter equal to the number of stored votes with that hash |
| `RoundStates.CorrectVotesDecide` | packages/consensus/source/round-state.ts:246-268 | fewer than a third of the validators cannot stop the votes of the others from being a majority |
| `RoundStates.RoundState.constructor` | packages/consensus/source/round-state.ts:61-78 | a round state starts empty, counters and flags included |
| `RoundStates.RoundState.AddProposal` | packages/consensus/source/round-state.ts:90-96 | the first proposal stays, a second one is refused |
| `RoundStates.RoundState.AddPrevote` | packages/consensus/source/round-state.ts:175-183 | the first prevote of a validator is kept, a second one is refused, and counters and signed flags agree with the votes |
| `RoundStates.RoundState.AddPrecommit` | packages/consensus/source/round-state.ts:189-197 | the same for precommits |
| `RoundStates.RoundState.Majorities` | packages/consensus/source/round-state.ts:246-292 | the counters decide exactly what counting the votes would, and are decided as soon as all but fewer than a third of the validators voted alike |
| `RoundStates.RoundState.HasMajorityPrecommitsWithoutProposal` | packages/consensus/source/round-state.ts:276-288 | true if and only if some block has +2/3 precommits and no proposal arrived; nil does not count |
| `RoundStates.RoundState.AggregatePrevotes` | packages/consensus/source/round-state.ts:322-325 | succeeds if and only if the proposed block has +2/3 prevotes of round validators, and flags exactly those voters |
| `RoundStates.RoundState.AggregatePrecommits` | packages/consensus/source/round-state.ts:327-330 | the same for precommits |
| `RoundStates.GetSignatures` | packages/consensus/source/round-state.ts:386-399 | exactly the votes for the block |
| `RoundStates.Aggregate` | packages/consensus/source/aggregator.ts:15-40 | succeeds if and only if the signers are +2/3 and all in range, and the flags mark exactly them |
| `RoundStates.Verify` | packages/consensus/source/aggregator.ts:42-71 | accepts if and only if the flags fit the validator set, are +2/3 and every flagged validator signed |
| `RoundStates.OneMajorityPerTally` | packages/consensus/source/round-state.ts:246-268 | at most one of all block hashes and nil has a majority in a tally |
| `Locks.ExclusiveRunsAlone` | packages/utils/source/lock.ts:6-48 | over every interleaving of promise resumptions in which no callback calls `runExclusive` synchronously, an exclusive callback runs beside no other callback |
| `Locks.ReentranceBreaksExclusion` | packages/utils/source/lock.ts:13-16 | as soon as a non-exclusive callback does call it, the run goes on, with steps that are all possible, to an exclusive callback that runs beside another callback: the condition is exact |
| `Locks.ReentranceIsReachable` | packages/utils/source/lock.ts:6-31 | two calls and one resumption lead to the point where such a callback can be entered |
| `Locks.NoLostWakeUp` | packages/consensus/source/consensus.ts:136-151 | over every interleaving, each call of `handle` is followed by an `applyRules` on its round state that starts after it, or one is queued; work is dropped only after disposal |
| `SenderPool.AddKeeps` | packages/transaction-pool-service/source/sender-state.ts:54-59 | an admitted transaction keeps the chain: consecutive nonces from the account's on, and a wallet balance that is the account's minus the values of all pooled transactions minus gas price times gas limit of each, and not negative |
| `SenderPool.AddEachKeeps` | packages/transaction-pool-service/source/sender-mempool.ts:157-172 | so does offering any list of transactions one after another |
| `SenderPool.AddEachConserves` | packages/transaction-pool-service/source/sender-mempool.ts:157-172 | and none of them is lost or doubled between kept and removed |
| `SenderPool.ReplaceKeeps` | packages/transaction-pool-service/source/sender-mempool.ts:84-155 | replacing keeps the chain; old transactions plus the new one are exactly the kept plus the removed ones, through the fallback too, and what is replaced has the same nonce and a lower price |
| `SenderPool.ReplaceInPlace` | packages/transaction-pool-service/source/sender-mempool.ts:104-127 | while the sender can pay for the whole chain, the new transaction takes the place of the old one and all later ones stay |
| `SenderPool.FallbackKeepsIffAdmitted` | packages/transaction-pool-service/source/sender-mempool.ts:129-155 | otherwise the new transaction is in the pool afterwards if and only if it is admitted behind the ones before it |
| `SenderPool.ReplacementIsDropped` | packages/transaction-pool-service/source/sender-mempool.ts:129-155 | a sender with one pooled transaction and a replacement it cannot pay for: the pool keeps neither |
| `SenderPool.ReAddKeeps` | packages/transaction-pool-service/source/sender-mempool.ts:157-172 | a chain rebuilt on any new account is a chain on that account, and conserves transactions |
| `SenderPool.ReAddDropsMined` | packages/transaction-pool-service/source/sender-mempool.ts:157-172 | after a block with the first pooled transactions of a sender, rebuilding drops exactly those as long as the account pays for the rest; on an unchanged account it changes nothing |
| `SenderPool.RemoveKeeps` | packages/transaction-pool-service/source/sender-mempool.ts:70-82 | removing a transaction takes the later ones along and leaves a chain |
| `SenderPool.TruncatedIs` | packages/transaction-pool-service/source/sender-state.ts:89-92 | reverting the last transactions one by one restores nonce and balance of the shorter chain |
| `SenderPool.SenderMempool.constructor` | packages/transaction-pool-service/source/sender-mempool.ts:23-26 | a new sender has the nonce and balance of its account and no transactions |
| `SenderPool.SenderMempool.AddTransaction` | packages/transaction-pool-service/source/sender-mempool.ts:48-68 | adds if and only if limit, nonce, balance, size, network and pre-verification admit it, the balance covering value plus gas price times gas limit, which the wallet then pays; else changes nothing |
| `SenderPool.SenderMempool.RevertTo` | packages/transaction-pool-service/source/sender-mempool.ts:70-82 | pops and reverts the transactions from an index on, latest first |
| `SenderPool.SenderMempool.RemoveTransaction` | packages/transaction-pool-service/source/sender-mempool.ts:70-82 | removes the transaction with that hash and all later ones, latest first, or nothing |
| `SenderPool.SenderMempool.AddAll` | packages/transaction-pool-service/source/sender-mempool.ts:157-172 | keeps what is admitted in turn and returns the rest |
| `SenderPool.SenderMempool.ReplaceTransaction` | packages/transaction-pool-service/source/sender-mempool.ts:84-155 | replaces in place or falls back to reverting and re-adding, and changes nothing when it fails |
| `SenderPool.SenderMempool.ReAddTransactions` | packages/transaction-pool-service/source/sender-mempool.ts:157-172 | rebuilds the chain on the new account |
| `PoolService.MempoolAddIs` | packages/transaction-pool-service/source/mempool.ts:42-62 | the pool before plus the new transaction is the pool after plus what was thrown out, with nothing in both |
| `PoolService.MempoolRemoveIs` | packages/transaction-pool-service/source/mempool.ts:64-74 | the same for a removal |
| `PoolService.MempoolReAddIs` | packages/transaction-pool-service/source/mempool.ts:76-90 | the same for rebuilding a sender |
| `PoolService.RemovedAreLast` | packages/transaction-pool-service/source/mempool.ts:64-74 | a removal leaves no gap: what goes are the transaction with that hash and later ones of its sender |
| `PoolService.EvictsExactlyOne` | packages/transaction-pool-service/source/service.ts:238-253 | evicting the lowest priority transaction removes that one alone |
| `PoolService.Service.constructor` | packages/transaction-pool-service/source/service.ts:8-56 | pool and storage start empty and agree |
| `PoolService.Service.GetPoolSize` | packages/transaction-pool-service/source/mempool.ts:22-24 | the number of pooled transactions |
| `PoolService.Service.RemoveOldTransactions` | packages/transaction-pool-service/source/service.ts:212-236 | exactly the transactions stay that entered after the expired block number and follow no older one of their sender, in pool and storage alike |
| `PoolService.Service.RemoveOld` | packages/transaction-pool-service/source/service.ts:217-235 | one expired row goes, and with it only later transactions of its sender |
| `PoolService.Service.RemoveLowestPriorityTransaction` | packages/transaction-pool-service/source/service.ts:238-253 | exactly one transaction leaves pool and storage, the cheapest of the senders' latest ones, every other chain is untouched and no gap appears |
| `PoolService.Service.GetLowest` | packages/transaction-pool-service/source/query.ts:101-103 | the latest transaction of some sender, and no sender's latest one is cheaper |
| `PoolService.Service.CleanUp` | packages/transaction-pool-service/source/service.ts:207-210 | the pool is within its limit, nothing expired is left, and nothing that survives was evicted unless the pool is at the limit; it ends |
| `PoolService.Service.AddTransactionToMempool` | packages/transaction-pool-service/source/service.ts:263-280 | the limit holds; with room the mempool decides alone; a full pool is first cleaned of expired transactions and, if it is full still, refuses a transaction that does not pay more than every lowest one and otherwise evicts exactly one lowest one and lets the mempool decide; the outcome is exact in every case |
| `PoolService.Service.MempoolAddTransaction` | packages/transaction-pool-service/source/mempool.ts:42-109 | what a replacement throws out leaves the storage too, and a rejection changes nothing |
| `PoolService.Service.MempoolReAddTransactions` | packages/transaction-pool-service/source/mempool.ts:76-90 | the chains of the given senders are rebuilt on their accounts one after the other, and what falls out leaves the storage too |
| `PoolService.Service.AddTransaction` | packages/transaction-pool-service/source/service.ts:104-137 | storage and mempool hold the same transactions afterwards, within the limit; only the new one can have come in, under the next row number; a stored hash is refused; with room the mempool decides, a full pool is cleaned up and then has to be outbid; a failed one leaves nothing behind |
| `PoolService.Service.Outbid` | packages/transaction-pool-service/source/service.ts:270-279 | a full pool takes only what pays more than every lowest transaction, one of which goes for it |
| `PoolService.Service.Store` | packages/transaction-pool-service/source/storage.ts:75-77 | a row is inserted under a number that was never used |
| `PoolService.Service.Commit` | packages/transaction-pool-service/source/service.ts:81-102 | the senders of the block are rebuilt on their new accounts, then cleaned up; storage and mempool agree, and no survivor is lost below the limit |
| `PoolService.Service.GetAllTransactions` | packages/transaction-pool-service/source/storage.ts:58-60 | all rows, once each, in the order of their numbers |
| `PoolService.Service.ReAddTransactions` | packages/transaction-pool-service/source/service.ts:139-193 | whatever the storage held, the mempool is what offering its rows in their order to an empty one gives, expired ones left out and a full one to be outbid; storage and mempool agree afterwards, within the limit |
| `PoolService.Service.ReAddOne` | packages/transaction-pool-service/source/service.ts:152-181 | one stored transaction gets back in as far as the mempool lets it, or leaves the storage, and no other unexpired one does |
| `PoolService.Service.Flush` | packages/transaction-pool-service/source/service.ts:195-205 | pool and storage are empty |
| `PoolRestart.ReloadsOnce` | packages/transaction-pool-service/source/service.ts:152-181 | while the rows fit into the pool, offering them in their order has one result |
| `PoolRestart.SenderReloaded` | packages/transaction-pool-service/source/mempool.ts:42-62 | as long as no two rows of a sender share a nonce, that result is, sender by sender, the chain of its unexpired rows re-added in row order |
| `PoolRestart.RestartRestores` | packages/transaction-pool-service/source/service.ts:139-193 | the same transactions are pooled after reloading if and only if none is expired, the rows of every sender stand in the order of its chain, and re-adding every chain to its account drops nothing |
| `PoolRestart.Restart` | packages/transaction-pool-service/source/service.ts:139-193 | the same of a restart of the service from any state it can be in |
| `PoolRestart.ReplacementBreaksOrder` | packages/transaction-pool-service/source/sender-mempool.ts:104-127 | whenever a transaction with followers is replaced in place, a restart does not bring the whole pool back, whatever the accounts are then |
| `PoolRestart.RestartLosesFollower` | packages/transaction-pool-service/source/storage.ts:49-60 | two transactions enter, the first is replaced, and after a restart the second is gone |
| `PriorityQuery.GetTransactions` | packages/transaction-pool-service/source/query.ts:109-152 | a greedy merge: every sender's queue appears whole and in order, nothing else does, at every position no sender's next transaction has a better price than the one picked, and none with the same price has waited for longer |
| `PriorityQuery.FirstOfEach` | packages/transaction-pool-service/source/query.ts:110-125 | the queue starts with the first transaction of every sender that has one |
| `PriorityQuery.SortSorts` | packages/transaction-pool-service/source/query.ts:147-148 | sorting orders by price and permutes |
| `PriorityQuery.SortIsStable` | packages/transaction-pool-service/source/query.ts:147-148 | transactions of one price stay in the order they were in |
| `PriorityQuery.MergePermutes` | packages/transaction-pool-service/source/query.ts:109-152 | the list is a permutation of the pool |
| `PriorityQuery.NextNonce` | packages/transaction-pool-service/source/query.ts:105-107 | wherever the list is read up to, the next transaction has exactly the nonce its account reaches after those before it |
| `PriorityQuery.GetFromHighestPriority` | packages/transaction-pool-service/source/query.ts:105-107 | the merge of the senders' queues from the earliest, highest gas price first, then first come, first served |
| `PriorityQuery.HighestPaysMost` | packages/transaction-pool-service/source/query.ts:12-13 | in that list every transaction pays at least as much as the next one of any sender with transactions left |
| `PriorityQuery.GetFromLowestPriority` | packages/transaction-pool-service/source/query.ts:101-103 | the merge from the latest, lowest gas price first, whose first transaction is the one a full pool evicts |
| `PriorityQuery.LowestPaysLeast` | packages/transaction-pool-service/source/query.ts:12-13 | in that list every transaction pays at most as much as the latest one left of any sender |
| `PriorityQuery.FirstIsLowest` | packages/transaction-pool-service/source/service.ts:243-245 | that first transaction is a sender's latest and no sender's latest one is cheaper |
| `PriorityQuery.Selector.constructor` | packages/transaction-pool-service/source/selector.ts:11-13 | no list is prepared at first |
| `PriorityQuery.Selector.Prepare` | packages/transaction-pool-service/source/selector.ts:52-60 | a new block and round gets a new list, best paying first, and starts at its beginning, the same one goes on |
| `PriorityQuery.Selector.GetBatch` | packages/transaction-pool-service/source/selector.ts:15-44 | consecutive calls for one block and round cut the list into consecutive batches within both limits, and a batch ends only at a limit or at the end of the list |
| `PriorityQuery.Selector.Fill` | packages/transaction-pool-service/source/selector.ts:21-43 | a batch is the next stretch of the list; it is within both limits, and one more transaction would pass one of them |
| `PriorityQuery.Iterate` | packages/forger/source/transaction-iterable.ts:21-39 | draining the batches ends and yields the list once and in order, best paying first, up to the first transaction of more than ten million bytes |
| `BlockExecution.TransactionForger.ProcessTransaction` | packages/forger/source/transaction-forger.ts:153-215 | only a transaction that succeeds within the remaining gas leaves a trace; one that overflows or fails is rolled back, and an overflow without a snapshot cannot happen |
| `BlockExecution.TransactionForger.ProcessTransactions` | packages/forger/source/transaction-forger.ts:122-151 | the collated list executes from the starting state with exactly the recorded gas and fee, within the gas limit, in the order offered, of every sender a prefix, everything of senders that never failed unless one did not fit; collation stops early only for time or gas |
| `BlockExecution.TransactionForger.GetTransactions` | packages/forger/source/transaction-forger.ts:85-120 | the state behind the returned root is the collated one with the end-of-block updates applied |
| `BlockExecution.MakeBlock` | packages/forger/source/block-forger.ts:55-103 | the payload size is the serialized transactions plus four bytes each |
| `BlockExecution.HasDuplicates` | packages/processor/source/verifiers/transactions-duplicates-verifier.ts:8-19 | true if and only if a hash appears twice |
| `BlockExecution.Verify` | packages/processor/source/block-verifier.ts:12-16 | passes if and only if parent, number, version, reward, gas limit, size, count and hashes are right |
| `BlockExecution.ReplayPrefix` | packages/processor/source/block-processor.ts:85-95 | a list that executes, executes up to every point, with totals that only grow |
| `BlockExecution.BlockProcessor.Execute` | packages/processor/source/block-processor.ts:85-95 | gives state and totals of executing the transactions in order, or stops where one fails or a total passes the claimed one, which then no continuation could meet |
| `BlockExecution.BlockProcessor.Process` | packages/processor/source/block-processor.ts:61-119 | succeeds if and only if the header agrees with an execution of the transactions: totals, state root and logs bloom; the EVM is then in that state, every receipt holds the gas its transaction used, the gas of the block is the sum of the receipts and its fee the sum of receipt times gas price, and block gas and size are within their limits |
| `BlockExecution.TotalsAreSums` | packages/blockchain-utils/source/fee-calculator.ts:11-13 | gas and fee of an execution are the sums of the gas used, and of gas used times gas price, over its receipts |
| `BlockExecution.AcceptedIsDetermined` | packages/processor/source/block-processor.ts:61-119 | two accepted blocks on one state with the same transactions, round, timestamp and proposer are the same block |
| `BlockExecution.CallsOfBlock` | packages/processor/source/block-processor.ts:61-119 | the calls into the EVM, in order: the context of the block, its transactions, rewards by its own milestone, and before a new round the registration fee and then the validators by the milestone of the next block |
| `BlockExecution.ForgeBlock` | packages/forger/source/block-forger.ts:26-53 | a processor that starts from the same state gets the forger's state, gas and fee for the forged block, which is within the gas limit and holds what collation put there; it accepts the block if and only if the configured version is 1, the block is not too large and no hash is in it twice, which follows if none is twice in the list |
| `BlockExecution.PoolListIsDistinct` | packages/transaction-pool-service/source/query.ts:105-152 | a pool that agrees with its storage lists every hash once |
| `BlockExecution.ForgeFromPool` | packages/forger/source/block-forger.ts:26-53 | from pool to processor: whatever the pool holds, the block forged from it is accepted if and only if version and size fit, has the forger's state, holds only pooled transactions, its nonces follow on from the accounts, and gas and fee are the sums over its receipts |
| `BlockExecution.BlockNonces` | packages/forger/source/transaction-forger.ts:139-147 | nonces in a forged block follow on from the accounts without gaps, whatever failed or was cut off |
| `BlockExecution.ForgeOversized` | packages/processor/source/verifiers/size-verifier.ts:15-22 | a call of the forger that gives a block the processor refuses for its size |
| `BlockExecution.ForgeForVersionTwo` | packages/processor/source/verifiers/version-verifier.ts:12-19 | a call of the forger that gives a block of version 1, refused where the configuration asks for version 2 |
| `ByteBuffers.LittleEndianRoundTrip` | packages/utils/source/byte-buffer.ts:20-110 | an integer in range is read back as it was written |
| `ByteBuffers.FromLittleEndianFits` | packages/utils/source/byte-buffer.ts:20-110 | every byte string of a width is the encoding of the integer it is read as |
| `ByteBuffers.LittleEndianAt` | packages/utils/source/byte-buffer.ts:20-110 | the byte at i has the weight 256^i |
| `ByteBuffers.BigEndianRoundTrip` | packages/utils/source/byte-buffer.ts:112-134 | the same for 256-bit integers |
| `ByteBuffers.FromBigEndianFits` | packages/utils/source/byte-buffer.ts:112-134 | and back |
| `ByteBuffers.BigEndianAt` | packages/utils/source/byte-buffer.ts:112-134 | the byte at i from the end has the weight 256^i |
| `ByteBuffers.ByteBuffer.FromSize` | packages/utils/source/byte-buffer.ts:12-14 | a buffer of that many zeros with the cursor at its start |
| `ByteBuffers.ByteBuffer.FromBuffer` | packages/utils/source/byte-buffer.ts:16-18 | all given bytes are still to be read |
| `ByteBuffers.ByteBuffer.WriteUint` | packages/utils/source/byte-buffer.ts:20-104 | appends the integer if and only if it is in range and fits, and else changes nothing |
| `ByteBuffers.ByteBuffer.ReadUint` | packages/utils/source/byte-buffer.ts:32-110 | reads exactly the next bytes as an integer, or nothing |
| `ByteBuffers.ByteBuffer.WriteBytes` | packages/utils/source/byte-buffer.ts:136-154 | appends the bytes if and only if they fit |
| `ByteBuffers.ByteBuffer.ReadBytes` | packages/utils/source/byte-buffer.ts:156-172 | reads exactly the next bytes if there are that many |
| `ByteBuffers.ByteBuffer.WriteUint256` | packages/utils/source/byte-buffer.ts:112-128 | appends 32 big-endian bytes if and only if the value is in range and fits |
| `ByteBuffers.ByteBuffer.ReadUint256` | packages/utils/source/byte-buffer.ts:130-134 | reads the next 32 bytes as an integer |
| `ByteBuffers.ByteBuffer.Skip` | packages/utils/source/byte-buffer.ts:202-208 | the cursor moves forwards or back if and only if it stays inside |
| `Serializer.UnpackedPacked` | packages/utils/source/validator-set-pack.ts:1-36 | a packed validator set unpacks to the same set |
| `Serializer.PackedUnpacked` | packages/utils/source/validator-set-pack.ts:12-36 | a number without bits beyond the validators packs back to itself |
| `Serializer.ValidatorSetPack` | packages/utils/source/validator-set-pack.ts:1-10 | the bit of weight 2^i is validator i |
| `Serializer.ValidatorSetUnpack` | packages/utils/source/validator-set-pack.ts:12-36 | bits beyond the validators are refused, the others are the flags |
| `Serializer.RoundTrip` | packages/serializer/source/serializer.ts:38-272 | for every schema and every record with values of the right sizes, reading what was written restores every property and consumes exactly the bytes written |
| `Serializer.RestoredIs` | packages/serializer/source/serializer.ts:148-245 | the restored properties are those of the schema; others of the target stay |
| `Serializer.EncodeInjective` | packages/serializer/source/serializer.ts:38-146 | records with the same bytes agree on every property |
| `Serializer.Canonical` | packages/serializer/source/serializer.ts:148-272 | whatever is read is written back as the very bytes it was read from, so a record has one encoding |
| `Serializer.Serialize` | packages/serializer/source/serializer.ts:38-146 | succeeds if and only if every value can be written and all fit into the announced length behind the skipped bytes, which stay zero |
| `Serializer.Deserialize` | packages/serializer/source/serializer.ts:148-245 | reads the fields in order and stops behind the last, or fails |
| `Serializer.WriteField` | packages/serializer/source/serializer.ts:247-257 | an optional field starts with 0 or 1 |
| `Serializer.ReadField` | packages/serializer/source/serializer.ts:259-272 | any other start of an optional field is refused |
| `Serializer.WriteValue` | packages/serializer/source/serializer.ts:51-142 | a value of the wrong kind or out of range is refused |
| `Serializer.ReadValue` | packages/serializer/source/serializer.ts:154-241 | each kind is read with its own size |
| `Serializer.WriteItems` | packages/serializer/source/serializer.ts:132-140 | every transaction behind its length |
| `Serializer.ReadItems` | packages/serializer/source/serializer.ts:231-239 | as many as the header counts |
| `BlockCodec.EncodedSize` | packages/crypto-block/source/serializer.ts:16-18 | a record takes up the sum of the sizes of its fields |
| `BlockCodec.HeaderSizeIs` | packages/crypto-block/source/service-provider.ts:16-37 | every header takes up the configured header size |
| `BlockCodec.HeaderLayout` | packages/crypto-block/source/serializer-schemas.ts:4-50 | which bytes a header is, field by field |
| `BlockCodec.SerializeWithTransactions` | packages/crypto-block/source/serializer.ts:28-34 | the bytes of the block, if they fit into header size plus stated payload size |
| `BlockCodec.DeserializeHeader` | packages/crypto-block/source/deserializer.ts:60-77 | a header whose payload size is not what follows it is refused |
| `BlockCodec.DeserializeWithTransactions` | packages/crypto-block/source/deserializer.ts:36-58 | transactions are read only from a payload, and use it up |
| `BlockCodec.BlockRoundTrip` | packages/crypto-block/source/deserializer.ts:36-97 | a serialized block has header size plus payload size bytes and is read back whole if and only if its header states that payload size; else it is refused |
| `BlockCodec.BlockIsCanonical` | packages/crypto-block/source/deserializer.ts:36-97 | no two byte strings are read as the same block |
| `BlockCodec.ForgedPayloadSize` | packages/forger/source/block-forger.ts:72-81 | the payload size the forger computes is the one that makes its blocks readable |
| `BlockCodec.MessageRoundTrip` | packages/crypto-messages/source/serializer.ts:20-33 | the length allocated for a message is exactly what it takes up, and it is read back |
| `BlockCodec.SignedMessageSizeIs` | packages/crypto-messages/source/serializer.ts:35-56 | the same length holds for the signed form |
| `BlockCodec.MessageLayout` | packages/crypto-messages/source/serializer-schemas.ts:4-38 | which bytes a vote is |
| `BlockCodec.SignedMessageLayout` | packages/crypto-messages/source/serializer-schemas.ts:20-28 | which bytes of it are signed |
| `BlockCodec.SignedMessagesDiffer` | packages/crypto-messages/source/serializer-schemas.ts:20-28 | signed bytes determine the vote: kind, block number, round, block hash, and the chain it is on |
| `BlockCodec.LockProofRoundTrip` | packages/crypto-proposal/source/serializer.ts:38-44 | a lock proof takes up its configured size and is read back |
| `BlockCodec.CommitProofRoundTrip` | packages/crypto-commit/source/serializer.ts:14-31 | a commit proof takes up its configured size and is read back |
| `BlockCodec.ProposalRoundTrip` | packages/crypto-proposal/source/serializer.ts:30-36 | a proposal takes up the length allocated for it and is read back |
| `BlockCodec.ProposalLayout` | packages/crypto-proposal/source/serializer-schemas.ts:4-25 | which bytes a proposal is |
| `BlockCodec.ProofLayout` | packages/crypto-proposal/source/serializer-schemas.ts:27-34 | which bytes commit and lock proofs are |
| `ProposalPayload.HexSlice` | packages/crypto-validation/source/parse-block-number.ts:44 | a slice of hexadecimal text stands for the slice of bytes at half the offset |
| `ProposalPayload.GetLockProof` | packages/crypto-proposal/source/factory.ts:92-102 | the lock proof behind its length, if that is not zero, and the rest |
| `ProposalPayload.MakePayloadFromBytes` | packages/crypto-proposal/source/factory.ts:75-90 | a payload is a whole block and no lock proof, or one that satisfies its schema |
| `ProposalPayload.ShortCutAgrees` | packages/crypto-validation/source/parse-block-number.ts:26-49 | on every payload the full parser accepts, the short cut finds the block number the full parser finds |
| `ProposalPayload.PayloadRoundTrip` | packages/crypto-proposal/source/serializer.ts:46-58 | every payload built without a lock proof, or with one that satisfies its schema, is read back, and the short cut finds its block number |
| `ProposalPayload.LockProofReads` | packages/crypto-proposal/source/deserializer.ts:34-45 | a lock proof is read from its configured size, whatever is behind it |
| `ProposalPayload.PayloadCanonical` | packages/crypto-proposal/source/factory.ts:75-102 | an accepted payload is written back as it was read if and only if its length byte is zero or the size of a lock proof |
| `ProposalPayload.PaddingIsIgnored` | packages/crypto-proposal/source/deserializer.ts:34-45 | every accepted payload with a lock proof can be padded behind the proof without being read differently |
| `Rlp.MinimalIs` | packages/crypto-transaction/source/serializer.ts:51-57 | integers are written without leading zeros and read back |
| `Rlp.MinimalIsOnly` | packages/crypto-transaction/source/deserializer.ts:243-251 | a field without leading zeros is the one encoding of its integer |
| `Rlp.EncodesByTheBook` | packages/crypto-transaction/source/serializer.ts:31 | items and lists are encoded as appendix B of the Ethereum yellow paper says |
| `Rlp.ReadLength` | packages/crypto-transaction/source/deserializer.ts:105-125 | lengths are shifted together in signed 32 bits; leading zeros are refused |
| `Rlp.DecodeItem` | packages/crypto-transaction/source/deserializer.ts:57-103 | the next item and what is behind it, or an error for every form that is not minimal or runs over the end |
| `Rlp.DecodeListBounds` | packages/crypto-transaction/source/deserializer.ts:9-55 | where the list starts and ends |
| `Rlp.ItemRoundTrip` | packages/crypto-transaction/source/deserializer.ts:57-103 | an encoded item is read back if and only if it is shorter than 2^31 bytes |
| `Rlp.ItemsRoundTrip` | packages/crypto-transaction/source/deserializer.ts:138-148 | up to eleven items are read back in order |
| `Rlp.ListRoundTrip` | packages/crypto-transaction/source/deserializer.ts:9-55 | the bounds of an encoded list are found if and only if it is shorter than 2^31 bytes |
| `Rlp.ItemCanonical` | packages/crypto-transaction/source/deserializer.ts:57-103 | an accepted item is its own encoding if and only if its length takes at most four bytes |
| `Rlp.ItemsCanonical` | packages/crypto-transaction/source/deserializer.ts:138-148 | the same for a list of items |
| `Rlp.LongLengthIsRead` | packages/crypto-transaction/source/deserializer.ts:114-124 | every item of 56 bytes or more has a second encoding, with a length of five bytes, that is accepted |
| `TransactionCodec.Deserialize` | packages/crypto-transaction/source/deserializer.ts:129-212 | a transaction exactly for a whole list of nine to eleven fields with canonical integers, an address or none, and signature parts in range |
| `TransactionCodec.PartRoundTrip` | packages/crypto-transaction/source/deserializer.ts:214-231 | stripping the leading zeros of r or s and padding them again gives them back |
| `TransactionCodec.FieldsAre` | packages/crypto-transaction/source/serializer.ts:8-29 | which field is which: nonce, gas price, gas limit, address, value, data, chain id and parity as in EIP-155, r, s, and a second signature if there is one |
| `TransactionCodec.TransactionRoundTrip` | packages/crypto-transaction/source/serializer.ts:8-32 | a serialized transaction is read back, chain id and parity split again, if and only if v is a parity and the list is shorter than 2^31 bytes |
| `TransactionCodec.TransactionCanonical` | packages/crypto-transaction/source/deserializer.ts:129-251 | accepted bytes are written back unchanged if and only if there are nine fields, or ten with a tenth that is not empty, the numbers are below 2^53 and no length takes more than four bytes |
| `TransactionCodec.ExtraFieldsAreDropped` | packages/crypto-transaction/source/deserializer.ts:140-187 | every list with eleven fields, or with an empty tenth, is read and written back shorter |
| `TransactionCodec.TenFieldsAreDropped` | packages/crypto-transaction/source/deserializer.ts:184-208 | one such list |
| `TransactionCodec.LargeNumbersAreRefused` | packages/crypto-transaction/source/serializer.ts:8-32 | whatever is read with a number of 2^53 or more cannot be written back at all |
| `TransactionCodec.LargePriceIsRefused` | packages/crypto-transaction/source/serializer.ts:51-57 | one such list, with a gas price of 2^53 |
| `Milestones.Configuration.constructor` | packages/crypto-config/source/configuration.ts:182-188 | the cursor starts at the first milestone |
| `Milestones.Configuration.GetMilestone` | packages/crypto-config/source/configuration.ts:81-102 | whatever was asked before, the last milestone that is not above the height, and none below the first one; both loops end in bounds |
| `Milestones.Configuration.GetNextMilestoneWithNewKey` | packages/crypto-config/source/configuration.ts:129-157 | the first later milestone with a number of validators that is not zero and differs from the one that holds |
| `Milestones.SortAscends` | packages/crypto-config/source/configuration.ts:200-201 | sorted milestones ascend by height and are the same ones, heights that repeat included |
| `Milestones.BuildMilestones` | packages/crypto-config/source/configuration.ts:199-213 | each milestone takes over what it does not give |
| `Milestones.CheckRoundValidators` | packages/crypto-config/source/configuration.ts:215-259 | accepts if and only if genesis has no validators, the next height introduces some, no later number is zero, and changes are whole rounds away from the entry before |
| `Milestones.SetConfig` | packages/crypto-config/source/configuration.ts:169-189 | a configuration exists if and only if it passes the check |
| `Milestones.MergedLookup` | packages/crypto-config/source/configuration.ts:199-213 | a lookup finds the number of validators of the last milestone that gave one |
| `Milestones.NextLookup` | packages/crypto-config/source/configuration.ts:129-157 | only milestones that give a number are found as new |
| `Rounds.GetValidatorSpans` | packages/blockchain-utils/source/round-calculator.ts:58-88 | one span per number of validators, with the round each starts at, or an error where a change falls inside a round |
| `Rounds.SpansTile` | packages/blockchain-utils/source/round-calculator.ts:58-88 | the spans adjoin, and each but the last holds a whole number of rounds |
| `Rounds.GetValidatorSpan` | packages/blockchain-utils/source/round-calculator.ts:46-56 | the span of a height is the first one that does not end before it |
| `Rounds.CalculateRound` | packages/blockchain-utils/source/round-calculator.ts:23-44 | genesis is round 0; any other height is counted in its span |
| `Rounds.RoundCovers` | packages/blockchain-utils/source/round-calculator.ts:33-43 | roundHeight ≤ height < roundHeight + maxValidators |
| `Rounds.NextRoundIs` | packages/blockchain-utils/source/round-calculator.ts:37-43 | nextRound of a height is the round of the next height, across spans too, and a new round starts exactly where the number grows |
| `Rounds.FirstRound` | packages/blockchain-utils/source/round-calculator.ts:58-64 | the block after genesis starts round 1 |
| `Rounds.RoundIsWhole` | packages/blockchain-utils/source/round-calculator.ts:33-43 | all heights of a round are in the same round: rounds partition the heights |
| `Rounds.RoundsHaveValidators` | packages/blockchain-utils/source/round-calculator.ts:46-88 | for an accepted configuration with spans, the rounds of all heights have the number of validators the milestones give for them if and only if, of several entries for one height, the first new one is also the last word |
| `Rounds.RoundHasValidators` | packages/blockchain-utils/source/round-calculator.ts:46-56 | so the number of validators of a round is the one the milestones give for its heights, as long as entries for one height agree |
| `Rounds.EqualHeightsDisagree` | packages/crypto-config/source/configuration.ts:243-258 | an accepted configuration that gives one height two numbers, where the round has the first and the milestone the second |
| `Rounds.AcceptedHasRounds` | packages/crypto-config/source/configuration.ts:243-258 | for every accepted configuration, the spans exist if and only if every entry that is the first new one of its height is a whole number of rounds away from the one before it, the first of them from the height after genesis |
| `Rounds.AgreeingHasRounds` | packages/crypto-config/source/configuration.ts:243-258 | where entries for one height agree, that is so if and only if, before every change, the last entry stands at the start of a round; so always if every entry changes the number |
| `Rounds.RepeatedNumberHidesMisfit` | packages/crypto-config/source/configuration.ts:248-251 | an accepted configuration without rounds |
| `Rounds.EqualHeightsHideMisfit` | packages/crypto-config/source/configuration.ts:243-258 | another one, in which no number repeats and one height has two |
| `Timestamps.MinimalTimestampIs` | packages/blockchain-utils/source/timestamp-calculator.ts:11-28 | the closed form is the previous timestamp plus the block time plus the stage timeouts of all rounds before |
| `Timestamps.IncreasesAreExact` | packages/blockchain-utils/source/timestamp-calculator.ts:21-25 | nothing is lost in the division by two |
| `Timestamps.IncreasesAreExactDoubles` | packages/blockchain-utils/source/timestamp-calculator.ts:12-25 | computed in doubles, however they are rounded, the increases of every round up to the limit are exact if and only if the odd part of the increase per round is at most 1801493 |
| `Timestamps.GetNextBlockTimestamp` | packages/consensus/source/scheduler.ts:30-35 | the earliest timestamp that leaves time to prepare the block and that the processor accepts; none beyond the last round |

## Left out

- Liveness: that a block is eventually committed, or that a node can always restart. The bootstrapper refuses inconsistent stores on purpose.
- The order in which Byzantine and correct nodes build proposals: any proposal may arrive at any node at any time, which is more than the code lets happen.
- `Locks`: the lock is a transition system over the steps between awaits, not a class; the values callbacks return and the errors they throw are not modelled.
- PoolService.Service.AddTransaction: a call is one step, although calls running under `runNonExclusive` interleave at their awaits; rebroadcasting and cooldowns are not modelled.
- PriorityQuery.GetTransactions: which of several senders with the same price comes first at the start, when none has been picked yet, depends on the order in which they entered the pool.
- BlockExecution.Verify: the generator, randao, round, timestamp, transactions root and legacy attribute verifiers, which look at signatures and fields that are not modelled, the genesis block, and the comparison with the serialized length, which `BlockCodec.BlockRoundTrip` settles.
- BlockExecution.TransactionForger.ProcessTransaction: a sender is its address; the source keys failed senders by public key, from which the address is derived.
- ProposalPayload.MakePayloadFromBytes: the schema of lock proofs is a parameter, any test of the proof and the header.
- ProposalPayload.ShortCutAgrees: text that is not hexadecimal, which the schema of proposals refuses.
- TransactionCodec.Deserialize: numbers of 2^53 and more are kept exact, while the source rounds them; the serializer refuses both.
- Milestones.SetConfig: everything a milestone holds besides the number of validators.
- Timestamps.IncreasesAreExactDoubles: the range of doubles, beyond which a product would be infinite.
- The cryptography, hashing and key derivation, the Rust EVM and the contracts.
- Networking, peers, HTTP and RPC interfaces, webhooks, workers and inter-process communication, the API database, the command line, logging and events.
