# A model of the bridge relayer

The repository is the relayer of a token bridge between Ethereum and MultiversX. Several relayers watch both chains.
Towards MultiversX they propose, sign and perform each Ethereum batch on a multisig contract; towards Ethereum they
gossip signatures on the batch's hash, execute the transfer once there are enough of them, and bring its outcome back as
a status update. Before a batch moves, a balance validator reconciles what the two chains have locked, minted and burnt.
A separate tool migrates the safe's funds under signatures collected off line.

The model follows these parts and proves what they are for:

- `Relayers` puts any number of relayers, honest and faulty, against the multisig contract and proves that Ethereum
  batches are executed exactly once, in order and unaltered. `Admissions` proves that behind every honest signature stands
  the signer's own check of the batch, `RelayerRuns` what the assumptions are needed for. `EthToMvx` is the machine each
  honest relayer runs there, `MvxToEth` and `MvxToEthRuns` the machine of the other direction.
- `Ledger` runs the books of two chains and proves that the validator of `BalanceValidator` never raises a false alarm on
  them; `Cumulation`, `TokenCheck` and `DueBatch` carry this to whole batches and to their payment.
- `Gossip`, `Signatures`, `GossipRuns` and `Transfers` follow a signature from the wire to the transaction it is sent
  with.
- `BatchIdSearch` and `Migration` are the migration tool's ID search and quorum check, `Leader` is the leader selection,
  `Status` the persisted metrics.
- `BigEndian`, `Codec`, `Framing`, `PendingBatch`, `Batches` and `BatchLists` are the wire formats and batches under all of these.

Where the source changes things in place the model is a class or a method proved against a specification function, and
the theorems are about that function; a run is a sequence of its steps. The clients' answers, clocks, hashes, signatures
and marshalling are parameters: the theorems hold for all of them, under the assumptions named where they are used.

What the main theorems assume:

- `Relayers`: fewer faulty relayers than the quorum, an unchanging quorum and relayer set, a contract that starts with no
  open actions, Ethereum batches numbered from one, and for honest relayers a node that reports a batch as final only with
  its final content. Answers may be stale by any amount; only the continuity of the deposit nonces needs the two counters
  of the first step to be read in order (`RelayerRuns.OldNonceBreaksContinuity` shows why). The
  contract itself is not in the repository: it is taken to act as the one the integration tests simulate, and on a perform
  with quorum to mark the action performed and set the last executed batch and deposit nonce to those of the batch. It is
  not taken to check their order, so the order is the relayers' doing.
- `Ledger`: token pairs are one to one; each asset is native on exactly one chain, where it is locked or minted and
  burnt, and minted and burnt on the other; transfers succeed in full, the contracts take no fee, queries do not fail, and
  batch IDs stay below the uint64 limit.
- `GossipRuns` and `Migration`: nothing about the signature schemes; what verifies, verifies.
- `Status`: what the marshaller wrote it can read back.

Where the code and its documentation differ the model follows the code:

- The comment on `UniqueID` (core/messages.go:15) speaks of the nonce; the ID is made of public key and payload.
- The comment on `ResolveNewDeposits` (core/batch.go:48) covers more deposits than statuses; with fewer the surplus
  statuses are set to rejected and kept, so their number then exceeds the deposits.
- The fifth Ethereum to MultiversX step stays in place after performing and leaves only when the action is reported as
  performed or a call fails.

Properties that do not hold without a condition have their exact condition, and beside it a case in which they fail:

- `TokenCheck.PassedIsPaidOnMultiversXIff` and `AmbiguousTokenIsOverdrawn`
- `MvxToEthRuns.ProposedStatusesFitIff` and `NewerBatchMisleadsStatuses`
- `MvxToEthRuns.ReportedStatusesSurviveIff` and `NewerBatchRejectsExecuted`
- `Batches.ResolvedMatchesDeposits` and `SurplusStatusesStay`
- `GossipRuns.QuorumIsOfDifferentSignersIff` and `OneSignerMeetsQuorum`
- `GossipRuns.ResyncIsCompleteIff` and `ResyncMayLoseAMessage`
- `GossipRuns.InOrderSenderIsHeard` and `FloodedFirstDelivery`
- `BalanceValidator.MvxWalkIsExactIff` and `PendingUnderExecutedIsMissed`
- `BalanceValidator.EthWalkIsExactIff` and `BatchAboveGapIsMissed`
- `BatchIdSearch.LeastFreeComesBackIff` and `GapIsPassedOver`
- `RelayerRuns.NoncesContinueIff` and `OldNonceBreaksContinuity`
- `RelayerRuns.SafeIffFewerFaultyThanQuorum` and `FaultyQuorumExecutesAnything`

`dafny verify dfyconfig.toml` checks the whole project.

## Model

| member | source | states |
|---|---|---|
| `Relayers.ExecutedExactlyOnceInOrder` | integrationTests/mock/multiversXContractStateMock.go:310-404 | In every interleaving of any number of honest and faulty relayers, with fewer faulty ones than the quorum, stale reads, and transactions delivered in any order, repeatedly or never: the transfers the contract has performed are exactly the final Ethereum batches from the first open one up to the last executed one, each once, in ID order and unaltered; and, when the two counters of the first step are read in order, with deposit nonces that continue without a gap |
| `Admissions.PerformedWasAdmitted` | integrationTests/mock/multiversXContractStateMock.go:334-404 | Every performed transfer carries a quorum of distinct signers, at least quorum minus the number of faulty ones of them honest, and each of these honest ones had itself, in an earlier execution of its first step, admitted exactly this batch: final, next in ID and nonces, its tokens available |
| `Admissions.SignerAdmittedTheBatch` | bridges/ethMultiversX/steps/ethToMultiversX/step01GetPending.go:33-60 | The same for every honest signer of any proposed transfer, performed or not: the event at which it admitted the batch |
| `Admissions.SignsOnlyWhatItAdmitted` | bridges/ethMultiversX/steps/ethToMultiversX/step03SignProposedTransfer.go:17-56 | Whatever an honest relayer is about to sign as a transfer is, in the contract as it is now, an action proposed for exactly the batch it has stored, which it admitted itself with all checks of the first step |
| `Admissions.SignedBatchCouldBePaid` | bridges/ethMultiversX/steps/ethToMultiversX/step01GetPending.go:53-58 | When its token answers were those of the executor's check, an honest signer knew at admission that the safe could pay the batch one deposit after the other, unless a token is ambiguous |
| `Relayers.PerformedWasVouchedFor` | integrationTests/mock/multiversXContractStateMock.go:334-404 | Every performed action carries a quorum of distinct signers, at least quorum minus the number of faulty ones of them honest, and is a status update or a final batch that followed the last executed one when it was looked up |
| `Relayers.HonestSignsOnlyItsBatch` | bridges/ethMultiversX/steps/ethToMultiversX/step03SignProposedTransfer.go:17-56 | Whatever an honest relayer signs as a transfer is, in the contract as it is now and however old the answers were, an action proposed for exactly the batch this relayer has stored, a final one that followed the last executed one |
| `RelayerRuns.SafeIffFewerFaultyThanQuorum` | integrationTests/mock/multiversXContractStateMock.go:348-362 | For every configuration with a quorum of at least one: all executions keep the order and contents of the executed batches if and only if there are fewer faulty relayers than the quorum |
| `RelayerRuns.FaultyQuorumExecutesAnything` | integrationTests/mock/multiversXContractStateMock.go:348-362 | For any batch there is an execution in which as many faulty relayers as the quorum get it executed |
| `RelayerRuns.NoncesContinueIff` | bridges/ethMultiversX/bridgeExecutor.go:187-198 | The deposit nonces of an executed batch continue those before it if and only if an honest signer of it, any of them, read the nonce of the batch executed before as the last one when it admitted the batch |
| `RelayerRuns.HonestSignerOf` | integrationTests/mock/multiversXContractStateMock.go:334-404 | Every executed batch has an honest signer |
| `RelayerRuns.OldNonceBreaksContinuity` | bridges/ethMultiversX/bridgeExecutor.go:187-198 | When the last deposit nonce may be read from an older state than the last batch ID, a repeated nonce is executed: a run through the machine's own steps |
| `RelayerRuns.OneBatch` | stateMachine/stateMachine.go:74-93 | With a quorum of one and at least one retry a relayer takes any batch that is due through its five steps, from fetching to performing, and is ready for the next one |
| `Relayers.InvariantHolds` | bridges/ethMultiversX/steps/ethToMultiversX/step01GetPending.go:33-60 | The invariant of the whole system (history, entries, log, pool, relayer states) holds in every reachable state |
| `Relayers.PerformableIsNext` | integrationTests/mock/multiversXContractStateMock.go:348-362 | A transfer that has reached quorum and is not performed yet is the next batch due, because every earlier one was performed under the same action |
| `Relayers.FoundActionIsCurrent` | clients/multiversx/mxClientDataGetter.go:352-362 | A non-zero action ID found for a batch at any past point of the contract's history still names that batch |
| `EthToMvx.WorksOnAdmittedBatch` | bridges/ethMultiversX/bridgeExecutor.go:187-227 | In any run, past the first step the machine holds the batch admitted by the last execution of that step: non-empty, final, ID one above the last executed one, nonces running on from the last executed one, and CheckAvailableTokens passed on the batch's own lists |
| `EthToMvx.AdmittedTokensPass` | bridges/ethMultiversX/steps/ethToMultiversX/step01GetPending.go:53-58 | An admitted batch passed the check of every token of its own lists with its sum, and unless a token is ambiguous the safe can pay its deposits one after the other |
| `EthToMvx.WorksOnIdentifiedAction` | bridges/ethMultiversX/bridgeExecutor.go:213-227 | In the quorum and perform steps the stored action ID is not zero and was answered for the batch stored now |
| `EthToMvx.CallsAreJustified` | bridges/ethMultiversX/steps/ethToMultiversX/step02ProposeTransfer.go:16-47 | Everything the machine sends: proposals only as leader, for the admitted batch with its own argument list; signatures only under the ID answered for it; performs only as leader under an identified ID |
| `EthToMvx.RetriesAreReset` | bridges/ethMultiversX/bridgeExecutor.go:428-440 | The retry counter is zero on every way into the quorum step and never exceeds its maximum |
| `EthToMvx.QuorumVisitIsBounded` | bridges/ethMultiversX/steps/ethToMultiversX/step04WaitForQuorum.go:16-34 | No visit to the quorum step lasts longer than the configured retries plus one execution, in any run |
| `EthToMvx.CreateMachineStates` | bridges/ethMultiversX/steps/ethToMultiversX/stepsFactory.go:21-52 | The five steps are registered under different identifiers and every one can be found under its own |
| `EthToMvx.Relayer.ExecuteStep` | stateMachine/stateMachine.go:74-93 | One execution of the current step with its effects, refining the step functions; every returned identifier is registered, so the machine always has a current step |
| `EthToMvx.Relayer.ExecuteGetPending` | bridges/ethMultiversX/steps/ethToMultiversX/step01GetPending.go:17-61 | The counter is reset and the batch stored before it is judged; the machine moves on exactly when the batch is final, continues the last executed ID and nonce, and its tokens are available |
| `EthToMvx.Relayer.GetAndStoreBatchFromEthereum` | bridges/ethMultiversX/bridgeExecutor.go:443-462 | The batch is stored with its framed call data, and only when it is final, non-empty and has the ID asked for |
| `EthToMvx.Relayer.ExecutePropose` | bridges/ethMultiversX/steps/ethToMultiversX/step02ProposeTransfer.go:16-47 | The proposal is sent only when nobody has proposed and this relayer leads; refines the step that CallsAreJustified speaks of |
| `EthToMvx.Relayer.ExecuteSign` | bridges/ethMultiversX/steps/ethToMultiversX/step03SignProposedTransfer.go:17-56 | The action ID is stored even when it is invalid, but then the machine starts over; refines the step that WorksOnIdentifiedAction speaks of |
| `EthToMvx.Relayer.ExecuteWaitForQuorum` | bridges/ethMultiversX/steps/ethToMultiversX/step04WaitForQuorum.go:16-34 | Every execution uses one retry or starts over; refines the step that QuorumVisitIsBounded speaks of |
| `EthToMvx.Relayer.ExecutePerform` | bridges/ethMultiversX/steps/ethToMultiversX/step05PerformActionID.go:16-43 | The perform is sent only while the action is reported as open and this relayer leads; the machine stays in the step after sending |
| `Transfers.SubmittedTransferIsVouchedFor` | clients/ethereum/client.go:360-378 | In any interleaving of the machine's executions with the messages it hears: a transfer goes out under the hash of exactly its own lists, with as many signatures as the quorum, each brought by a different message that was accepted and verified for that hash since the machine last cleared the store |
| `Transfers.SubmittedByDifferentSignersIff` | bridges/ethMultiversX/signaturesHolder.go:51-68 | Whatever is picked, the transfer is signed by quorum many different signers if and only if the quorum is below two or no two gathered strings recover to the same signer |
| `Transfers.MachineRuns` | stateMachine/stateMachine.go:74-93 | The executions of such an interleaving are a run of the machine |
| `MvxToEthRuns.TransferMatchesItsHash` | bridges/ethMultiversX/bridgeExecutor.go:528-574 | A transfer is sent only by the leader, for a batch admitted by the last execution of the first step and reported just now as not executed, and the hash it is sent with is the hash of its own lists, which the relayer signed itself |
| `MvxToEthRuns.GathersForOwnHash` | bridges/ethMultiversX/bridgeExecutor.go:528-546 | From signing to confirmation the stored hash is the one of the stored batch |
| `MvxToEthRuns.TransfersAdmittedBatch` | bridges/ethMultiversX/steps/multiversxToEth/step01GetPending.go:17-65 | On its way to Ethereum the batch is the one admitted by the last execution of the first step |
| `MvxToEthRuns.SettlesExecutedBatch` | bridges/ethMultiversX/steps/multiversxToEth/step06ResolveSetStatus.go:18-47 | A status update is worked on only for a batch that Ethereum reported as executed, with the statuses it reported as resolving leaves them |
| `MvxToEthRuns.ReportedStatusesSurviveIff` | bridges/ethMultiversX/steps/multiversxToEth/step06ResolveSetStatus.go:26-44 | The proposal says of every deposit what Ethereum reported if and only if everything reported beyond the number of the refetched batch was a rejection |
| `MvxToEthRuns.NewerBatchRejectsExecuted` | bridges/ethMultiversX/steps/multiversxToEth/step06ResolveSetStatus.go:26-44 | An executed deposit is proposed as rejected although the numbers fit: a run |
| `MvxToEthRuns.PerformsIdentifiedAction` | bridges/ethMultiversX/steps/multiversxToEth/step08SignProposedSetStatus.go:17-56 | In the last two steps the action ID is not zero and was answered for the batch and statuses stored now |
| `MvxToEthRuns.StatusUpdatesAreJustified` | bridges/ethMultiversX/steps/multiversxToEth/step07ProposeSetStatus.go:16-52 | Every status update proposed, signed or performed is for such a batch, under its own ID and statuses |
| `MvxToEthRuns.ProposedStatusesFitIff` | bridges/ethMultiversX/steps/multiversxToEth/step06ResolveSetStatus.go:26-44 | There are as many statuses as deposits of the batch they are proposed for if and only if the larger of the reported and the refetched number is that of its deposits; for a refetched batch of that size, if and only if Ethereum reported no more |
| `MvxToEthRuns.NewerBatchMisleadsStatuses` | bridges/ethMultiversX/steps/multiversxToEth/step06ResolveSetStatus.go:26-44 | The refetched batch is not compared with the stored one: a run that proposes two statuses for one deposit |
| `MvxToEthRuns.AdmittedIsPaid` | bridges/ethMultiversX/steps/multiversxToEth/step01GetPending.go:57-62 | The Ethereum safe can pay an admitted batch, deposit by deposit |
| `MvxToEthRuns.VisitIsBounded` | bridges/ethMultiversX/bridgeExecutor.go:618-636 | No visit to one of the three counted steps lasts longer than its maximum plus one execution |
| `MvxToEthRuns.CountersStaySound` | bridges/ethMultiversX/steps/multiversxToEth/step01GetPending.go:26-27 | Every counter stays within its maximum and is zero on the way into the step it counts |
| `MvxToEth.Relayer.ExecuteStep` | stateMachine/stateMachine.go:74-93 | One execution of the current step, refining the ten step functions; every identifier returned is registered, so the machine always has a current step |
| `MvxToEth.CreateMachineStates` | bridges/ethMultiversX/steps/multiversxToEth/stepsFactory.go:21-67 | The ten steps are registered under different identifiers and every one can be found under its own |
| `MvxToEth.Relayer.ExecuteGetPending` | bridges/ethMultiversX/steps/multiversxToEth/step01GetPending.go:17-65 | Three counters reset; a batch already executed on Ethereum goes straight to its status update |
| `MvxToEth.Relayer.ExecuteSignTransfer` | bridges/ethMultiversX/bridgeExecutor.go:529-546 | The hash stored and signed is the one of the stored batch's own lists |
| `MvxToEth.Relayer.ExecuteWaitForQuorumOnTransfer` | bridges/ethMultiversX/steps/multiversxToEth/step03WaitForQuorumOnTransfer.go:16-35 | Every execution uses one retry or starts over; refines the step that VisitIsBounded speaks of |
| `MvxToEth.Relayer.ExecutePerformTransfer` | bridges/ethMultiversX/steps/multiversxToEth/step04PerformTransfer.go:16-39 | A transfer is sent only while Ethereum reports the batch as not executed; refines the step that TransferMatchesItsHash speaks of |
| `MvxToEth.Relayer.ExecuteResolveSetStatus` | bridges/ethMultiversX/steps/multiversxToEth/step06ResolveSetStatus.go:18-47 | Signatures are cleared on every path, and statuses resolved against the batch fetched anew |
| `MvxToEth.Relayer.ExecuteProposeSetStatus` | bridges/ethMultiversX/steps/multiversxToEth/step07ProposeSetStatus.go:16-52 | Counts its executions and proposes only as leader; refines the step that StatusUpdatesAreJustified speaks of |
| `MvxToEth.Relayer.ExecuteSignSetStatus` | bridges/ethMultiversX/steps/multiversxToEth/step08SignProposedSetStatus.go:17-56 | The answered action ID is stored, and signed only when valid and not signed yet |
| `MvxToEth.Relayer.ExecuteWaitForQuorumOnSetStatus` | bridges/ethMultiversX/steps/multiversxToEth/step09WaitForQuorumOnSetStatus.go:16-35 | Every execution uses one retry or starts over |
| `MvxToEth.Relayer.ExecutePerformSetStatus` | bridges/ethMultiversX/steps/multiversxToEth/step10PerformSetStatus.go:16-43 | Performs only as leader and stays until the action is reported as performed |
| `BatchLists.ExtractListMvxToEth` | core/batchProcessor/batchProcessor.go:32-54 | The lists hold every deposit's Ethereum token, recipient, MultiversX token, amount and nonce in order, addresses cropped or padded to twenty bytes, and the direction |
| `BatchLists.ExtractListEthToMvx` | core/batchProcessor/batchProcessor.go:58-80 | The same with the roles of the two tokens exchanged |
| `BatchLists.ToAddress` | core/batchProcessor/batchProcessor.go:38-41 | Always twenty bytes, and the identity on twenty bytes |
| `Ledger.AlwaysBalanced` | clients/balanceValidator/balanceValidator.go:86-119 | In every reachable state of the two ledgers (deposits and batch executions on either chain, in any order, for all four legal native and mint-burn setups) both chains vouch for the same, non-negative amount of every pair |
| `Ledger.NoFalseAlarm` | clients/balanceValidator/balanceValidator.go:60-120 | In every such state CheckToken fails only for a safe that holds too little: no mismatch, no negative amount, no failed walk |
| `Ledger.NextBatchPasses` | clients/balanceValidator/balanceValidator.go:60-131 | And the next batch due in either direction always passes with its total of any token |
| `Ledger.VerdictIsExact` | clients/balanceValidator/balanceValidator.go:60-258 | On any books, tampered with or not, CheckToken passes if and only if the safe holds enough, the setup is legal and the two chains vouch for the same non-negative amount |
| `Ledger.VouchedIsCirculating` | clients/balanceValidator/balanceValidator.go:166-258 | The common amount covers what is on its way back, and so does the safe |
| `Ledger.EthWalkSumsPending` | clients/balanceValidator/balanceValidator.go:302-325 | The upward walk returns exactly the sum of the token's deposits over all batches not executed on the other chain |
| `Ledger.MvxWalkSumsPending` | clients/balanceValidator/balanceValidator.go:271-300 | So does the downward walk |
| `Ledger.EthAmountIsVouched` | clients/balanceValidator/balanceValidator.go:166-211 | The amount computed for Ethereum is the one its books vouch for |
| `Ledger.MvxAmountIsVouched` | clients/balanceValidator/balanceValidator.go:213-258 | The amount computed for MultiversX is the one its books vouch for |
| `BalanceValidator.MvxWalkIsExactIff` | clients/balanceValidator/balanceValidator.go:271-300 | On any answers the downward walk never exceeds what is pending and equals it if and only if no pending batch with the token lies below a missing or executed one |
| `BalanceValidator.PendingUnderExecutedIsMissed` | clients/balanceValidator/balanceValidator.go:282-292 | A pending batch below an executed one is not counted: a case |
| `BalanceValidator.EthWalkIsExactIff` | clients/balanceValidator/balanceValidator.go:302-325 | When every query is answered the upward walk never exceeds what is there above the last executed batch and equals it if and only if no batch with the token lies above a gap |
| `BalanceValidator.BatchAboveGapIsMissed` | clients/balanceValidator/balanceValidator.go:315-318 | A batch above an ID without one is not counted: a case |
| `BalanceValidator.PendingMvxAmount` | clients/balanceValidator/balanceValidator.go:271-300 | The downward loop ends and refines the walk |
| `BalanceValidator.PendingEthAmount` | clients/balanceValidator/balanceValidator.go:302-325 | The upward loop ends and refines the walk |
| `BalanceValidator.GetTotalAmountFromBatch` | clients/balanceValidator/balanceValidator.go:260-269 | The sum of the batch's deposits of the token |
| `BalanceValidator.ComputeAmount` | clients/balanceValidator/balanceValidator.go:166-258 | Both computations of a corrected amount with their early exits |
| `BalanceValidator.CheckToken` | clients/balanceValidator/balanceValidator.go:60-120 | All branches in their order, refining the verdict function that the ledger theorems are about |
| `DueBatch.DueBatchIsAvailable` | bridges/ethMultiversX/bridgeExecutor.go:576-591 | In every reachable state of the two ledgers, in either direction, the batch that is due passes the check of all its cumulated tokens, on its own lists |
| `DueBatch.DueBatchIsPaid` | bridges/ethMultiversX/bridgeExecutor.go:576-616 | And the receiving safe pays its deposits one by one without being overdrawn by any |
| `TokenCheck.PassedIsPaidOnEthereum` | bridges/ethMultiversX/bridgeExecutor.go:576-616 | Towards Ethereum: when the check has passed, paying the deposits one by one never overdraws the safe the client reported, at any prefix |
| `TokenCheck.PassedIsPaidOnMultiversXIff` | bridges/ethMultiversX/bridgeExecutor.go:576-616 | Towards MultiversX, where amounts are summed per Ethereum token: what has passed is paid one by one if and only if the sums of those MultiversX tokens are covered that stand beside several Ethereum tokens, or share one with another |
| `TokenCheck.OneToOneIsPaidOnMultiversX` | bridges/ethMultiversX/bridgeExecutor.go:576-616 | When the tokens of the batch stand for each other one to one, what has passed is paid at every prefix |
| `TokenCheck.AmbiguousTokenIsOverdrawn` | bridges/ethMultiversX/bridgeExecutor.go:598-607 | A batch with two Ethereum tokens for one MultiversX token, 60 of each, 100 in the safe: the check passes on its lists and the second payment fails |
| `TokenCheck.CheckAvailableTokens` | bridges/ethMultiversX/bridgeExecutor.go:576-591 | The batch check passes if and only if every distinct token passes with its cumulated amount |
| `Cumulation.GetCumulatedTransfers` | bridges/ethMultiversX/bridgeExecutor.go:593-616 | Distinct tokens in order of first occurrence, each with what stands beside it and the exact sum, in fresh and pairwise different numbers; no given amount changes |
| `Cumulation.CumulationConservesTotal` | bridges/ethMultiversX/bridgeExecutor.go:593-616 | The cumulated amounts add up to the given ones |
| `Cumulation.UniqueTokensAreDistinct` | bridges/ethMultiversX/bridgeExecutor.go:598-607 | No token twice and none left out |
| `Cumulation.ConvertedStandsBeside` | bridges/ethMultiversX/bridgeExecutor.go:605-607 | A cumulated token and its converted form stand side by side in the batch |
| `Cumulation.PayIffCovered` | clients/ethereum/client.go:432-459 | For any balances: paying deposit by deposit never overdraws if and only if the cumulated amounts are covered, and then every balance has gone down by the cumulated amount |
| `BatchIdSearch.FindAnUsableBatchId` | executors/ethereum/migrationBatchCreator.go:108-155 | The search ends; what it returns is free and either 1 or right after an executed ID; it asks at most once about ID 1, once per upper bound and once per halving; it fails only on a failed query about an ID not asked before |
| `BatchIdSearch.Pass` | executors/ethereum/migrationBatchCreator.go:115-153 | One pass of the loop, with at most one query per end that is new and one for the middle |
| `BatchIdSearch.CheckAvailableBatch` | executors/ethereum/migrationBatchCreator.go:157-176 | Asks only about an ID that is not remembered, and remembers the answer |
| `BatchIdSearch.LeastFreeIsTheUsableId` | executors/ethereum/migrationBatchCreator.go:136-153 | When the executed IDs are those from 1 to some last one, an ID is what the search may return if and only if it is the least free one |
| `BatchIdSearch.LeastFreeComesBackIff` | executors/ethereum/migrationBatchCreator.go:114-155 | For any executed IDs the least free one comes back if and only if none of the IDs above it on the bisection's way from the first free upper bound down to it is executed |
| `BatchIdSearch.PrefixHalts` | executors/ethereum/migrationBatchCreator.go:130-134 | Such a search stops at the first upper bound above the last executed ID |
| `BatchIdSearch.GapIsPassedOver` | executors/ethereum/migrationBatchCreator.go:147-149 | With a gap among the executed IDs the result need not be the least free one: a concrete oracle, every pass |
| `BatchIdSearch.EverySearchHalts` | executors/ethereum/migrationBatchCreator.go:114-155 | Finitely many executed IDs always leave a bound at which the search stops |
| `BatchIdSearch.BoundOnlyGrows` | executors/ethereum/migrationBatchCreator.go:130-134 | As long as ID 1 and every upper bound are executed the loop does nothing but raise the bound |
| `BatchIdSearch.SumsNeverWrap` | executors/ethereum/migrationBatchCreator.go:132-136 | No sum of the two ends leaves a uint64 when the search stops by half of that range |
| `BatchIdSearch.HalvingsIsLogarithmic` | executors/ethereum/migrationBatchCreator.go:136-153 | The number of halvings is the base-two logarithm of the interval, rounded up |
| `GossipRuns.PassedIffRunningMaximum` | p2p/noncesOfPublicKeys.go:22-36 | For any sequence of received messages those past the nonce gate are, per public key, exactly the strict left-to-right maxima above zero among the authentic ones from whitelisted senders |
| `GossipRuns.PassedInGrowingOrder` | p2p/broadcaster.go:159-164 | Messages of one sender pass with growing nonces, so none is processed twice |
| `GossipRuns.InOrderSenderIsHeard` | p2p/relayerMessageHandler.go:97-115 | Of a sender whose numbered messages first arrive in order, exactly the first delivery of each passes the nonce gate, whatever is replayed in between, and it is accepted if and only if that first delivery is not flooded |
| `GossipRuns.FloodedIsLostForGood` | p2p/broadcaster.go:159-171 | A message flooded away after its nonce was taken is never accepted, however often it is delivered again |
| `GossipRuns.FloodedFirstDelivery` | p2p/broadcaster.go:159-171 | A message that arrives in order and is never accepted: a run |
| `GossipRuns.AcceptedIffPassedUnflooded` | p2p/broadcaster.go:142-171 | Accepted is past the nonce gate and not flooded |
| `GossipRuns.CreatedArriveInOrder` | p2p/relayerMessageHandler.go:97-115 | Messages that a relayer made one after the other, arriving in that order, satisfy what InOrderSenderIsHeard asks, as long as the counter does not wrap |
| `GossipRuns.NoncesGrowIffNoWrap` | p2p/relayerMessageHandler.go:97-98 | Messages made one after the other carry growing nonces above zero if and only if the counter does not wrap |
| `GossipRuns.ResyncIsCompleteIff` | p2p/broadcaster.go:224-248 | The stored messages sent after a join are all accepted by a relayer that has seen none if and only if those of each sender arrive with growing nonces and none is flooded; the map they come from sees to neither |
| `GossipRuns.ResyncMayLoseAMessage` | p2p/broadcaster.go:224-248 | A reachable store and an order of its messages in which one is lost |
| `GossipRuns.GatheredIffVouched` | bridges/ethMultiversX/signaturesHolder.go:51-68 | A signature is at hand for a hash if and only if, since the last clear, it came in a sign message whose envelope verified, whose sender was whitelisted, whose nonce was fresh, that was not flooded away, and that verified for this hash |
| `GossipRuns.SubmittedAreVouched` | clients/ethereum/client.go:360-368 | The signatures picked for a transfer are vouched for one by one by different messages of that kind |
| `GossipRuns.QuorumIsOfDifferentSignersIff` | bridges/ethMultiversX/signaturesHolder.go:55-68 | De-duplication is by byte string: every choice for a transfer comes from pairwise different signers if and only if the quorum is below two or no two gathered strings recover to the same signer |
| `GossipRuns.OneSignerMeetsQuorum` | bridges/ethMultiversX/signaturesHolder.go:55-68 | Two accepted messages with different strings of one signer meet a quorum of two: a run |
| `GossipRuns.StoredWasDelivered` | bridges/ethMultiversX/signaturesHolder.go:25-35 | What is stored was delivered since the last clear |
| `GossipRuns.DeliveredIsStored` | bridges/ethMultiversX/signaturesHolder.go:70-77 | What was delivered since the last clear is stored |
| `Gossip.Broadcaster.ProcessReceivedMessage` | p2p/broadcaster.go:142-181 | Verdict, nonce table, stored signatures, blacklisted peers and the answer to a join request, for every message; the nonce is used up before the antiflood check |
| `Gossip.Broadcaster.Admit` | p2p/broadcaster.go:142-171 | The checks in their order and the nonce table they leave |
| `Gossip.Broadcaster.ProcessNonce` | p2p/noncesOfPublicKeys.go:22-36 | Accepts exactly a nonce above the last one of its sender and then remembers it |
| `Gossip.Broadcaster.CreateMessage` | p2p/relayerMessageHandler.go:97-115 | The counter moves on in every case and numbers the message |
| `Gossip.Broadcaster.NotifyClients` | p2p/broadcaster.go:215-222 | Every client stores the signature once per registration, and nothing else changes |
| `Gossip.Broadcaster.ProcessSignMessage` | p2p/broadcaster.go:190-213 | Clients are told exactly of signatures that decode and verify |
| `Gossip.Broadcaster.RetrieveUniqueMessages` | p2p/broadcaster.go:238-248 | The union of the stored messages by sender and payload, later clients winning |
| `Gossip.SignedDeterminesMessage` | p2p/relayerMessageHandler.go:67-71 | The bytes under the envelope's signature determine payload and nonce |
| `Signatures.SignaturesHolder.Signatures` | bridges/ethMultiversX/signaturesHolder.go:51-68 | Exactly the signatures stored for the hash, equal byte strings once |
| `Signatures.SignaturesHolder.SelectForTransfer` | clients/ethereum/client.go:360-368 | Succeeds if and only if the quorum is reached, with exactly that many pairwise different signatures |
| `Signatures.SignaturesHolder.IsQuorumReached` | clients/ethereum/client.go:539-550 | Reached exactly when there are as many different signatures; a quorum below one is an error |
| `Signatures.SignaturesHolder.ProcessNewMessage` | bridges/ethMultiversX/signaturesHolder.go:25-35 | Stored under sender and payload, signature appended |
| `Signatures.SignaturesHolder.ClearStoredSignatures` | bridges/ethMultiversX/signaturesHolder.go:71-77 | Nothing is left |
| `Signatures.SignaturesHolder.AllStoredSignatures` | bridges/ethMultiversX/signaturesHolder.go:38-48 | Each stored message once, in any order |
| `Leader.ExactlyOneLeader` | bridges/ethMultiversX/topology/topologyHandler.go:52-78 | Relayers with the same whitelist and slot agree on the leader, whatever orders they met the keys in, and exactly one whitelisted relayer answers yes |
| `Leader.SortedListingIsUnique` | clients/roleProviders/multiversXRoleProvider.go:113-126 | A set of keys has one sorted listing |
| `Leader.NoLeaderWithoutKeys` | bridges/ethMultiversX/topology/topologyHandler.go:55-57 | Somebody leads if and only if the whitelist is not empty |
| `Leader.SlotLastsAnInterval` | bridges/ethMultiversX/topology/topologyHandler.go:61-62 | From the epoch on a slot lasts exactly one interval |
| `Leader.RandomInt` | bridges/ethMultiversX/topology/hashRandomSelector.go:16-28 | The index is always in range |
| `Leader.RoleProvider.SortedPublicKeys` | clients/roleProviders/multiversXRoleProvider.go:113-126 | The whitelist, strictly sorted, from any iteration order |
| `Leader.RoleProvider.ProcessResults` | clients/roleProviders/multiversXRoleProvider.go:69-96 | Takes a fetched list over as a whole if and only if all addresses are valid; otherwise nothing changes and the first malformed one is named |
| `Migration.CheckRelayersSigsAndQuorum` | executors/ethereum/migrationBatchExecutor.go:167-171 | Succeeds if and only if at least quorum distinct whitelisted relayers supplied a valid signature on the batch's own hash, and then returns one valid signature for each of them, one to one |
| `Migration.CheckQuorum` | executors/ethereum/migrationBatchExecutor.go:246-283 | The first signature of each whitelisted relayer, in any order |
| `Migration.FirstPerRelayer` | executors/ethereum/migrationBatchExecutor.go:247-265 | Maps exactly the whitelisted signers to their first signature |
| `Migration.IsWhitelistedRelayer` | executors/ethereum/migrationBatchExecutor.go:285-294 | Found exactly when listed |
| `Migration.KeptIffSoundAndSameHash` | executors/ethereum/migrationBatchExecutor.go:173-213 | The two filters keep exactly the valid signatures on the expected hash |
| `Migration.GetSameMessageHashSignatures` | executors/ethereum/migrationBatchExecutor.go:173-189 | Keeps the signatures on the expected hash, in order |
| `Migration.GetValidSignatures` | executors/ethereum/migrationBatchExecutor.go:191-213 | Keeps the signatures that decode and verify, in order |
| `Migration.HashedArguments` | executors/ethereum/migrationBatchCreator.go:296-316 | The lists hashed at creation say the same as the batch, deposit by deposit |
| `Migration.ExtractArgumentsFromBatch` | executors/ethereum/migrationBatchExecutor.go:143-165 | The lists sent at execution say the same as the batch, deposit by deposit |
| `Migration.HashedIsSent` | executors/ethereum/migrationBatchExecutor.go:113-121 | What is hashed is what is sent: the batch determines the lists and the lists the deposits |
| `Migration.AssembleDeposits` | executors/ethereum/migrationBatchCreator.go:279-285 | The deposits with something to move, in order |
| `Migration.AssemblyConservesFunds` | executors/ethereum/migrationBatchCreator.go:279-285 | Leaving out empty balances leaves the total unchanged |
| `Migration.PositiveNoncesGrow` | executors/ethereum/migrationBatchCreator.go:213-214 | The remaining deposit nonces still grow |
| `Codec.DecodeUndoesEncode` | parsers/multiversxCodec.go:113-150 | Decoding undoes the field-by-field encoding for all lengths below 2^32 and hands the tail back untouched |
| `Codec.DecodeRejectsEveryPrefix` | parsers/multiversxCodec.go:48-150 | Every proper prefix of an encoded header is rejected, with the error of the field it ends in |
| `Codec.DecodeAcceptsOnlyEncodings` | parsers/multiversxCodec.go:48-150 | Whatever is accepted is an encoding of what came out |
| `Codec.DecodeCut` | parsers/multiversxCodec.go:48-150 | The outcome for a message cut at any point |
| `Framing.GasLimitSurvivesFraming` | parsers/multiversxCodec.go:20-44 | Extracting the gas limit undoes strict encoding and framing if and only if the encoding is shorter than 2^32 bytes |
| `Framing.FrameLosesOnlyEmptyCalls` | bridges/ethMultiversX/bridgeExecutor.go:496-517 | Two frames are equal only for equal call data, or for two forms of no call |
| `Framing.MissingDataHasNoGasLimit` | parsers/multiversxCodec.go:153-171 | A deposit's data is refused for its marker if and only if it carries no call |
| `Framing.AddBatchScMetadata` | bridges/ethMultiversX/bridgeExecutor.go:465-480 | Every deposit's data is the missing marker or marker, big-endian length and payload of its own event |
| `Framing.AddMetadataToTransfer` | bridges/ethMultiversX/bridgeExecutor.go:482-494 | The first event with the deposit's nonce, or missing data |
| `Framing.ProcessData` | bridges/ethMultiversX/bridgeExecutor.go:496-517 | The frame, in place |
| `PendingBatch.ParseUndoesSerialize` | integrationTests/mock/multiversXContractStateMock.go:442-453 | Parsing inverts the contract's flat form for any number of deposits; an empty batch is an error |
| `PendingBatch.ParseIffDescribed` | clients/multiversx/client.go:239-297 | A response parses to a batch if and only if it is a readable ID followed by the six fields of each of its deposits, at least one, statuses zeroed and as many |
| `PendingBatch.CreateFromResponse` | clients/multiversx/client.go:239-297 | All indexes in bounds; cached token conversion agrees with converting every deposit, each distinct token converted once |
| `PendingBatch.ReadDeposits` | clients/multiversx/client.go:256-290 | The loop over the groups of fields: the deposits of the whole response, and a cache with exactly their tokens |
| `PendingBatch.ReadDeposit` | clients/multiversx/client.go:258-290 | One deposit and the token cache it leaves |
| `Batches.ProposalArgsDetermineBatch` | clients/multiversx/client.go:339-348 | The flattened argument list determines batch ID and deposits |
| `Batches.ReadUndoesProposal` | clients/multiversx/client.go:339-348 | Reading the argument list back gives the batch |
| `Batches.ProposeTransferArgs` | clients/multiversx/client.go:339-348 | The list sent when proposing |
| `Batches.QueryArgs` | clients/multiversx/mxClientDataGetter.go:331-362 | The list used to look the action up is the same one |
| `Batches.VerifyDepositNonces` | bridges/ethMultiversX/bridgeExecutor.go:200-211 | Accepts exactly the deposits numbered on from the last executed one, as uint64 values |
| `Batches.TransferBatch.ResolveNewDeposits` | core/batch.go:49-65 | Both loops, in place |
| `Batches.ResolvedMatchesDeposits` | core/batch.go:49-65 | There are as many statuses as deposits afterwards if and only if there were no more before; the common ones are kept; resolving again changes nothing |
| `Batches.ResolvedKeepsGivenIff` | core/batch.go:56-58 | The given statuses stay in front if and only if those beyond the new number were rejections |
| `Batches.SurplusStatusesStay` | core/batch.go:56-58 | Two statuses for one deposit stay two: a case |
| `Batches.AttachMetadata` | bridges/ethMultiversX/bridgeExecutor.go:465-480 | Running AddBatchScMetadata on the batch's deposits gives the batch the machine stores |
| `Status.RestartLosesNothing` | status/statusHandler.go:117-171 | With a store that always works, after any updates and restarts of any handlers sharing it, a restarted handler holds exactly the persistable part of its metrics |
| `Status.RestartFindsLastSync` | status/statusHandler.go:146-171 | With failing reads and writes it holds the persistable part as of its last successful write or restart |
| `Status.UnpersistedUpdateKeepsShare` | status/persistence.go:45-79 | Updating a metric that is not persisted does not change the persisted part |
| `Status.StatusHandler.constructor` | status/statusHandler.go:22-39 | A handler starts with the persistable part of what is stored under its name, or with nothing |
| `Status.StatusHandler.PersistChanges` | status/statusHandler.go:146-171 | Writes under its own name only, and only for persisted metrics |
| `Status.StatusHandler.SetIntMetric` | status/statusHandler.go:42-48 | Update and write-through |
| `Status.StatusHandler.AddIntMetric` | status/statusHandler.go:51-57 | Update and write-through |
| `Status.StatusHandler.SetStringMetric` | status/statusHandler.go:60-66 | Update and write-through |
| `Status.Needed` | status/persistence.go:45-63 | The filtering loops keep exactly the persisted metrics |
| `Status.ShouldPersistMetric` | status/persistence.go:71-79 | Listed or not |

## Left out

- Generated contract bindings, the thin Ethereum and ERC20 wrappers, the web server, the command line tools, configuration and logging: call forwarding and I/O.
- Cryptography, ABI packing, JSON, hex and bech32: parameters of the model, with only the assumptions each theorem names.
- Timers, polling, context cancellation and the waiting loops for confirmation and final statuses: their outcome is an answer of the step. The perform and confirmation steps of the MultiversX to Ethereum machine alternate without a bound in the code, so none is stated.
- The partial migration amounts and display strings: `big.Float` rounding.
- The pending-operation filter, the gas station, gas limits and fee checks: single branches.
- `GetTransactionsStatuses` (a final answer's status bytes), `CheckClientAvailability` (reports a block number fetched too many times in a row), `GetBatch` on Ethereum (copies the contract's deposits, with the token cache of the MultiversX client) and `computeExtraGasForSCCallsBasic` (gas per byte of call data): no theorem here depends on them.
- Rejected transfers, refunds and contract fees in the ledger: the contracts are not part of this model.
- How the SDK renders arguments as bytes: an argument is a byte string, a big integer or an int64.
- `TransferBatch.Clone`, `BlockNumber` and the display fields other than `displayableData`.
- Locks and goroutines: every method runs to its end; interleaving is modelled between events and between relayers, not inside a method.
- DueBatch.DueBatchIsAvailable: the Ethereum tokens of the registry are twenty-byte addresses.
- BatchIdSearch.FindAnUsableBatchId: IDs are unbounded numbers; `SumsNeverWrap` says when that is the same as uint64. The pauses between queries are not modelled, and the contract's answers do not change during the search.
- BalanceValidator.PendingEthAmount: requires a batch ID at which the walk ends, since the loop would not stop on endless answers; a contract has finitely many batches.
- BalanceValidator.CheckToken: the four native and mint-burn flags are answers that either come or fail, without their own queries.
- Migration.CheckQuorum: the quorum is a natural number; the uint64 truncation of a larger one is not modelled.
- Migration.HashedIsSent: says nothing about collisions of the hash, nor about the file in which the batch is handed from creation to execution.
- Leader.RoleProvider.SortedPublicKeys: the algorithm of `sort.Slice` is replaced by insertion; only its result is promised.
- Signatures.SignaturesHolder.SelectForTransfer: the quorum is a natural number; nil messages are not modelled.
- Signatures.SignaturesHolder.Signatures: equal signatures are equal byte strings, as in the code; `GossipRuns.QuorumIsOfDifferentSignersIff` says what that leaves open.
- Status.StatusHandler.AddIntMetric: integers do not overflow.
- Relayers.ExecutedExactlyOnceInOrder: status updates are proposed, signed and performed freely by the other half of an honest relayer; safety only, since nothing forces a transaction to be delivered.
