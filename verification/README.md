# CENNZnet in Dafny

A model of the parts of CENNZnet that keep state across calls, and proofs of what every run of
them keeps: the CENNZX spot exchange, the Ethy witness protocol, the generic-asset ledger, the
ERC20 peg with its delayed claims, the Ethereum bridge (eth_call notarization, event claims, event
proofs and notary sets), the Ethereum state oracle, and the wallet's signable message.

Each component has up to three modules.

- `...Spec`: the state as a datatype and every operation as a function on it, error paths included,
  with runs as sequences of operations. Fields described as histories are not stored on chain; they
  record events or calls that the properties speak of.
- `...Safety` and neighbours (`EthCallBallots`, `EventClaimOutcome`, `VoteGuard`, `AssetStatements`,
  `OracleQueue`): invariants, what each operation keeps, and the results over whole runs.
- `...Answers` and neighbours (`EthyProgress`, `EventClaimVerdict`, `NotarySetChoice`, `OracleTiming`): when
  an operation succeeds and what exactly it then does, in terms of balances, counts of votes, keys and
  blocks.
- `...Pallet`, `...Exchange`, `...Worker`: classes with the storage maps as fields, whose methods
  update them step by step, loops included, and are proved to land where the specification says.

`Prelude`, `Arithmetic` and `MapSum` hold wrappers, nonlinear facts and sums over maps.

Results that are not what one might expect from the code. In each case the failing input is given
and the property is proved to hold exactly when a stated condition does.

- A two-hop buy can take more from the second pool than it pays for: the core that moves is
  recomputed with the sell formula and can fall short of the quote (`CennzxTwoHop.SecondPoolCanLose`,
  `CennzxSafety.BuyStep`).
- The exchange pool of the core asset itself pays every withdrawal twice out of one balance
  (`CennzxProviders.CorePoolPaysTwice`, `CennzxProviders.CorePoolTrapped`).
- A node can prove one event twice with 2, 3, 4, 6 or 8 validators, and with no other number
  (`EthyDoubleProof.TwoProofsPossible`, `EthySafety.AtMostOneProof`).
- Reserving or withdrawing down to dust, and `AssetCurrency::burn`, unbalance the books exactly when
  the amount is not zero (`AssetConservation.EffectBalanced`, `AssetConservation.HarmfulOperations`).
- A transfer or withdrawal leaves what the locks of its account require exactly when the remainder is not
  swept to the dust account; otherwise locked funds are lost (`AssetStatements.LocksHold`,
  `AssetStatements.LockedDustSwept`).
- A notary may vote on an eth_call again and is counted again: two votes of one notary are a consensus
  of three validators. A consensus has the threshold of distinct notaries behind it exactly when nobody
  who voted for the result voted again (`EthCallSafety.OneNotaryMakesConsensus`,
  `EthCallSafety.ConsensusIsGenuine`).
- The check on incoming votes looks among the event votes only. It lets the second call vote through,
  and refuses a first one of a notary that voted on a pending claim of the same number
  (`VoteGuard.CallVoteRefused`, `VoteGuard.FirstCallVoteRefused`, `VoteGuard.SecondCallVoteAdmitted`).
- An eth_call given up on is reported with the last vote's data
  (`EthCallSafety.GivenUpCallReportsLastVote`, `EthCallSafety.VoteDecides`).
- With all votes in, an event claim stays pending for as long as the notary set stays the same exactly
  when the yays lie strictly between 65% and 66%, for example 15 of 23, and then blocks the eth_call of
  its number (`EventClaimOutcome.StuckExactly`, `EventClaimOutcome.StuckWith23`,
  `VoteGuard.StuckClaimBlocksCall`, `VoteGuard.BlockedFromGenesis`). Keys of a new era could still vote.
- The "future" bucket a verified hash is filed under is the current one, so a prune in the same
  bucket forgets the hash at once, although the storage comments speak of keeping it for the deadline;
  the same transaction can then be verified twice (`EventClaimSafety.ForgottenBySameBucket`,
  `EventClaimOutcome.VerifiedTwice`).
- A signing request names the notary set in force exactly when its proof was asked for while the bridge
  was active; a delayed one names an earlier set (`NotarySetSafety.RequestsNameTheirSet`,
  `NotarySetSafety.LateProofNamesOldSet`).
- Ending an era that was never announced installs no keys at all. What is installed is what was announced
  exactly when every era that ends was announced (`NotarySetSafety.UnannouncedEraLosesKeys`,
  `NotarySetSafety.InstalledAsAnnounced`).
- Idle time passes over challenged oracle responses without counting them, but drops as many ids from the
  front of the queue as ran: the challenged request is lost and the one that ran stays queued without its
  request. Every live request stays in one place exactly when no challenged id precedes a callback that
  runs (`OracleQueue.ChallengedCallbackLost`, `OracleQueue.RequestsInOnePlace`).
- The signable message differs from EIP-191 for the empty message only (`EthWallet.MatchesEip191`).

Assumptions shared by the runs: ids do not wrap, block numbers advance by one, and the validator set
is fixed during a run of votes. Signature checks are an uninterpreted predicate.

## Model

| member | source | states |
|---|---|---|
| CennzxPricing.FeeFreePriceExact | crml/cennzx/src/lib.rs:513-549 | the fee-free price is the least payment that keeps the product of the reserves, both ways |
| CennzxPricing.BuyPriceKeepsProduct | crml/cennzx/src/lib.rs:513-549 | a buy price is positive, at least the fee-free price, and paying it never lowers the product of the reserves, for every fee and size |
| CennzxPricing.SellPriceKeepsProduct | crml/cennzx/src/lib.rs:613-645 | what a sell pays out is below the reserve and never lowers the product of the reserves |
| CennzxPricing.FeeRoundTrip | crml/cennzx/src/types.rs:96-114 | multiplying by the fee rate and dividing again loses at most one unit, and none exactly when nothing was rounded |
| CennzxPricing.QuoteDrift | crml/cennzx/src/lib.rs:513-645 | settling a buy quote q with the sell formula is within R/S+1 of q, and covers q if and only if one of two roundings is exact |
| CennzxSafety.NoWorseTransitive | crml/cennzx/src/lib.rs:192-290 | the order of pools by core*asset/liquidity² (cross-multiplied) is transitive |
| CennzxSafety.NoFreeLunch | crml/cennzx/src/lib.rs:756-817 | with equal liquidity, a pool that is no worse and has no more of one asset has no less of the other |
| CennzxSafety.AddStep | crml/cennzx/src/lib.rs:192-242 | adding liquidity never lowers core*asset/liquidity² of any pool and keeps liquidity backed by both reserves |
| CennzxSafety.RemoveStep | crml/cennzx/src/lib.rs:252-290 | removing liquidity keeps the same, and removing the last of it leaves both reserves at zero |
| CennzxSafety.SellStep | crml/cennzx/src/lib.rs:715-817 | a sell, one hop or two, keeps every pool no worse and its liquidity unchanged |
| CennzxSafety.BuyStep | crml/cennzx/src/lib.rs:669-817 | a buy keeps a pool no worse if and only if it is not the second pool of a two-hop buy that got less core than the fee-free price |
| CennzxSafety.TradeReserves | crml/cennzx/src/lib.rs:756-817 | where a trade leaves the reserves of every pool, with the core moved between two pools recomputed by the sell formula |
| CennzxSafety.MintKeepsSum | crml/cennzx/src/lib.rs:342-347 | minting keeps the total equal to the sum of shares exactly when the total does not saturate, or one provider owns all |
| CennzxSafety.BurnKeepsSum | crml/cennzx/src/lib.rs:350-356 | burning keeps the total of every pool equal to the sum of its shares |
| CennzxSafety.StepSafe | crml/cennzx/src/lib.rs:192-290 | any operation, failed ones included, keeps books and backing of every asset, and the value per share of every pool it covers |
| CennzxSafety.RunKeepsInv | crml/cennzx/src/lib.rs:326-356 | over any run TotalLiquidity is the sum of all LiquidityBalance entries and liquidity is backed by positive reserves |
| CennzxSafety.ValuePerShareNeverFalls | crml/cennzx/src/lib.rs:192-290 | over any run of adds, removes, buys, sells and plain transfers, core*asset/liquidity² of a pool that stays open never falls, and both reserves stay positive |
| CennzxTwoHop.TwoHopBuyDrift | crml/cennzx/src/lib.rs:457-481 | in a successful two-hop buy the core that really moves is within R/S+1 of the quoted core, and covers it if and only if the quote is exact |
| CennzxTwoHop.ExactQuoteCovers | crml/cennzx/src/lib.rs:790-815 | an exact quote pays the second pool at least its fee-free price |
| CennzxTwoHop.SecondPoolCanLose | crml/cennzx/src/lib.rs:790-815 | a concrete two-hop buy, in a state that meets the invariant, after which the second pool is worse |
| CennzxProviders.EveryoneCanLeave | crml/cennzx/src/lib.rs:252-290 | all providers can withdraw their whole shares in any order, and after the last one both reserves and the total are zero |
| CennzxProviders.CorePoolPaysTwice | crml/cennzx/src/lib.rs:252-290 | on the core asset's own pool, any provider can withdraw w of the liquidity if and only if twice its value is in the one reserve |
| CennzxProviders.CorePoolTrapped | crml/cennzx/src/lib.rs:192-290 | a state reached by adding core liquidity to the core pool, out of which it cannot be withdrawn |
| CennzxProviders.CorePoolTrapsItsProvider | crml/cennzx/src/lib.rs:252-290 | a sole provider of the core asset's own pool can withdraw everything if and only if the reserve is zero |
| CennzxProviders.AddThenRemoveNeverGains | crml/cennzx/src/lib.rs:192-290 | adding to a live pool and removing the new liquidity at once succeeds and leaves the user with no more of either asset than before |
| CennzxConservation.TransferConserves | crml/cennzx/src/lib.rs:756-817 | a transfer between any two accounts keeps the total held of every asset |
| CennzxConservation.TradeConserves | crml/cennzx/src/lib.rs:756-817 | so does a trade, one hop or two |
| CennzxConservation.AssetsConserved | crml/cennzx/src/lib.rs:192-290 | over any run of all operations the amount of every asset held by users and pools is unchanged |
| CennzxConservation.TraderPays | crml/cennzx/src/lib.rs:756-817 | a trade takes exactly the amount sold from the trader and gives exactly the amount bought to the recipient, and changes no other user balance |
| CennzxConservation.BuyWithinLimit | crml/cennzx/src/lib.rs:669-705 | a successful buy delivers exactly the amount bought for at most the agreed maximum |
| CennzxConservation.SellWithinLimit | crml/cennzx/src/lib.rs:715-751 | a successful sell takes exactly the amount sold for at least the agreed minimum |
| CennzxAnswers.SellPriceExact | crml/cennzx/src/lib.rs:613-645 | a sell price is quoted if and only if it is the largest payout that keeps the product of the reserves, given what is sold less the fee |
| CennzxAnswers.BuyPriceExact | crml/cennzx/src/lib.rs:513-549 | a buy price is quoted if and only if it is the smallest charge that makes the product grow, with the fee on top |
| CennzxAnswers.ChargeNearLeast | crml/cennzx/src/lib.rs:513-549 | without the fee the buyer pays at most one more than the least payment that keeps the product |
| CennzxAnswers.SellAnswer | crml/cennzx/src/lib.rs:715-817 | a sell, one hop or two, succeeds and moves given amounts on all balances if and only if these are its terms: largest payouts, limit, funds and room |
| CennzxAnswers.SellPaysLargest | crml/cennzx/src/lib.rs:556-645 | after a successful sell, what each pool paid is the largest payout that keeps its product, on its balances |
| CennzxAnswers.BuyAnswer | crml/cennzx/src/lib.rs:669-817 | a buy, one hop or two, succeeds and moves given amounts on all balances if and only if these are its terms |
| CennzxAnswers.AddTermsExist | crml/cennzx/src/lib.rs:216-227 | every deposit has exactly one pair of asset paid and liquidity minted, within one unit of the pool's ratio |
| CennzxAnswers.AddAnswer | crml/cennzx/src/lib.rs:192-242 | adding liquidity succeeds if and only if these respect limits and balances, and then balances, shares and totals change by exactly them |
| CennzxAnswers.RemoveAnswer | crml/cennzx/src/lib.rs:252-290 | removing liquidity succeeds if and only if the share is there and the portion of each reserve, rounded down by less than one unit, respects the limits, and then pays exactly that |
| CennzxExchange.Exchange.constructor | crml/cennzx/src/lib.rs:318-338 | a new exchange has no liquidity |
| CennzxExchange.Exchange.Mint | crml/cennzx/src/lib.rs:342-347 | minting in place is the specified mint |
| CennzxExchange.Exchange.Burn | crml/cennzx/src/lib.rs:350-356 | burning in place is the specified burn |
| CennzxExchange.Exchange.AddToPool | crml/cennzx/src/lib.rs:192-242 | adding liquidity in place is the specified operation, or changes nothing and reports the specified error |
| CennzxExchange.Exchange.RemoveFromPool | crml/cennzx/src/lib.rs:252-290 | the same for removing liquidity |
| CennzxExchange.Exchange.Settle | crml/cennzx/src/lib.rs:756-817 | all transfers are attempted and the first error undoes them all: the specified trade, or no change |
| CennzxExchange.Exchange.BuyAsset | crml/cennzx/src/lib.rs:669-705 | a buy in place is the specified buy and returns the amount sold |
| CennzxExchange.Exchange.SellAsset | crml/cennzx/src/lib.rs:715-751 | a sell in place is the specified sell and returns the amount bought |
| EthySafety.NoteKeeps | ethy-gadget/src/witness_record.rs:76-152 | noting a first witness keeps each authority counted at most once per event over all digests and proofs |
| EthySafety.ProveKeeps | ethy-gadget/src/worker.rs:283-350 | emitting a proof and clearing the record keeps the same, with the proof's signers spent |
| EthySafety.RunKeeps | ethy-gadget/src/worker.rs:283-350 | a node keeps that invariant for every event over any sequence of received, processed and own witnesses |
| EthySafety.ProofsPerEvent | ethy-gadget/src/worker.rs:298-350 | over its whole run a node emits at most n / max(1, floor(3n/5)) proofs per event |
| EthySafety.OneProofSizes | ethy-gadget/src/worker.rs:298-302 | two groups cannot both reach the threshold if and only if n is at most 1, 5, 7, or at least 9 |
| EthySafety.AtMostOneProof | ethy-gadget/src/witness_record.rs:45-152 | for exactly those sizes, at most one proof per event over the whole run, although clearing empties the record |
| EthySafety.ProofIsSound | ethy-gadget/src/witness_record.rs:50-65 | every emitted proof has at least floor(3n/5) distinct signers, each one's valid signature in its own slot and nothing in the others |
| EthySafety.ConflictingProofsNeedDoubleSigners | ethy-gadget/src/gossip.rs:110-166 | two proofs of any two nodes share at least 2*floor(3n/5)-n validators whose signatures on both digests are valid |
| EthyProgress.ProofExactly | ethy-gadget/src/worker.rs:283-350 | over any run a node has emitted no proof for an event if and only if for no digest max(1, floor(3n/5)) validators voted first |
| EthyProgress.ProvedExactly | ethy-gadget/src/worker.rs:283-350 | for the sizes that allow one proof, the event is proved for a digest if and only if that many validators voted for it first |
| EthyProgress.KnownUntilProved | ethy-gadget/src/gossip.rs:110-166 | once passed on, witnesses of that authority on that event are refused until the event is proved |
| EthyProgress.MarkCompleteEffect | ethy-gadget/src/gossip.rs:82-97 | marking complete adds the event, drops only the smallest one and only beyond thirty, and keeps the order |
| EthyProgress.HandleComplete | ethy-gadget/src/worker.rs:298-350 | known votes and completed events change exactly when a proof is emitted, for its event |
| EthyProgress.RunComplete | ethy-gadget/src/gossip.rs:82-97 | over any run the list is sorted, has at most 31 entries and lists proved events only |
| EthyDoubleProof.TwoProofsPossible | ethy-gadget/src/witness_record.rs:45-65 | for every other size there is a run in which a node proves one event twice |
| EthyWorker.BinarySearch | ethy-gadget/src/gossip.rs:82-97 | binary search on a sorted vector tells whether and where an element is |
| EthyWorker.InsertAt | ethy-gadget/src/gossip.rs:110-166 | inserting at the reported place keeps the vector sorted |
| EthyWorker.WitnessRecord.constructor | ethy-gadget/src/witness_record.rs:25-43 | a fresh record is valid and empty |
| EthyWorker.WitnessRecord.NoteWitness | ethy-gadget/src/witness_record.rs:76-152 | the nested maps change as specified for this event and not for any other; the result says whether the authority was new |
| EthyWorker.WitnessRecord.HasConsensus | ethy-gadget/src/witness_record.rs:59-65 | true exactly when the votes for the digest reach the threshold |
| EthyWorker.WitnessRecord.SignaturesFor | ethy-gadget/src/witness_record.rs:50-57 | the loop fills one slot per validator from the recorded votes |
| EthyWorker.WitnessRecord.Clear | ethy-gadget/src/witness_record.rs:45-48 | the votes of the event go, who has voted stays, other events are untouched |
| EthyWorker.GossipValidator.ValidateWitness | ethy-gadget/src/gossip.rs:110-166 | a witness is kept exactly when it is new, from an active validator and correctly signed |
| EthyWorker.GossipValidator.Finish | ethy-gadget/src/gossip.rs:82-97 | marking complete drops known votes and keeps the bounded, sorted list of complete events |
| EthyWorker.Worker.Handle | ethy-gadget/src/worker.rs:283-350 | handling a witness in place, of a validator or of another key, is the specified step of the node |
| EthyWorker.Worker.Publish | ethy-gadget/src/worker.rs:298-350 | publishing emits the proof of the recorded votes and clears the event |
| AssetLocks.ReasonsMeaning | crml/generic-asset/src/types.rs:51-80 | simplified reasons cover the purposes of the withdrawal, and joining covers exactly what either covers |
| AssetLocks.WithdrawalRule | crml/generic-asset/src/lib.rs:826-855 | a non-zero withdrawal is allowed if and only if the new balance is at least the largest applicable lock |
| AssetLocks.SetLockEffect | crml/generic-asset/src/lib.rs:916-936 | set_lock replaces in place or appends; ids stay unique and other locks keep their places |
| AssetLocks.ExtendLockEffect | crml/generic-asset/src/lib.rs:938-968 | extend_lock leaves the larger amount and the joint reasons in place, or appends; ids stay unique and other locks are untouched |
| AssetLocks.ExtendNeverLoosens | crml/generic-asset/src/lib.rs:938-968 | for every reason the extended locks require at least as much as before and as the new lock, so nothing refused becomes allowed |
| AssetLocks.RemoveLockEffect | crml/generic-asset/src/lib.rs:970-978 | remove_lock takes out that lock alone |
| AssetStatements.OperationPosts | crml/generic-asset/src/lib.rs:521-783 | every operation changes the free and the reserved balance of every account by its entries, dust included |
| AssetStatements.RestsAddUp | crml/generic-asset/src/lib.rs:708-783 | what unreserve, slash, slash_reserved and repatriate_reserved took and the rest they report add up to what was asked; a slash takes from the reserve only when nothing is left free |
| AssetStatements.IssuancePosts | crml/generic-asset/src/lib.rs:521-575 | what every operation does to the issuance itself, and the imbalances of issue and burn |
| AssetStatements.DoneIfAllowed | crml/generic-asset/src/lib.rs:521-855 | an operation succeeds if and only if it is allowed: only the minter mints, only the burner burns, balances and the account's own locks suffice; otherwise nothing changes |
| AssetStatements.LocksHold | crml/generic-asset/src/lib.rs:626-657 | a transfer or withdrawal leaves at least what the locks require if and only if the remainder is not swept as dust |
| AssetStatements.LockedDustSwept | crml/generic-asset/src/lib.rs:626-657 | a transfer that respects a lock and sweeps the locked remainder |
| AssetStatements.RunKeepsRights | crml/generic-asset/src/lib.rs:792-806 | over any run the minter, the burner, the existential deposit and the locks of an asset stay as they were |
| AssetStatements.StatementBalances | crml/generic-asset/src/impls.rs:63-150 | over any run in which the supply of an asset fits 128 bits, for every account, the closing free and reserved balances are the opening ones plus the entries posted |
| AssetStatements.BystandersUntouched | crml/generic-asset/src/lib.rs:521-783 | over any run whatsoever, an account that no operation names, other than the dust account, keeps its free and its reserved balance |
| AssetConservation.HarmfulOperations | crml/generic-asset/src/lib.rs:679-701 | one ledger and one operation of each of the three kinds that unbalance the books |
| AssetConservation.TransferBalanced | crml/generic-asset/src/lib.rs:626-655 | a transfer, dust reclaim included, keeps the supply |
| AssetConservation.ReserveBalanced | crml/generic-asset/src/lib.rs:679-701 | reserving keeps the books if and only if it does not take the dust branch with a non-zero amount |
| AssetConservation.SlashBalanced | crml/generic-asset/src/lib.rs:728-738 | a slash hands out exactly what it took, and returns what free and reserved balance did not cover |
| AssetConservation.WithdrawBalanced | crml/generic-asset/src/lib.rs:1032-1055 | a currency withdrawal keeps the books unless, and only unless, it takes the dust branch with a non-zero amount; the multi-currency one always does |
| AssetConservation.EffectBalanced | crml/generic-asset/src/lib.rs:521-783 | every ledger operation changes supply, issuance and imbalances in step if and only if it is none of the three harmful cases |
| AssetConservation.ImbalanceArithmetic | crml/generic-asset/src/imbalances.rs:99-197 | split and offset keep the net issuance effect; merge does if and only if the sum fits |
| AssetConservation.DropConserves | crml/generic-asset/src/imbalances.rs:199-211 | dropping an imbalance conserves its asset if and only if the issuance does not saturate |
| AssetConservation.ActConserves | crml/generic-asset/src/lib.rs:521-783 | one operation, drop, split, merge or offset keeps every asset's books |
| AssetConservation.RunConserves | crml/generic-asset/src/impls.rs:63-218 | over any run and for every asset: free and reserved balances plus outstanding negative imbalances equal issuance plus outstanding positive ones |
| AssetConservation.SettledStaysSquare | crml/generic-asset/src/imbalances.rs:199-211 | if imbalances are dropped at once no drop saturates, and issuance equals the sum of all balances |
| AssetConservation.IssuanceIsSumOfBalances | crml/generic-asset/src/impls.rs:63-150 | the same over any run |
| AssetConservation.PlainAdditionsFit | crml/generic-asset/src/lib.rs:679-783 | the unchecked additions of reserve, unreserve and repatriate cannot overflow |
| AssetPallet.Pallet.ReclaimFreeBalance | crml/generic-asset/src/lib.rs:882-889 | the whole free balance goes to the dust account; other assets are untouched |
| AssetPallet.Pallet.Mint | crml/generic-asset/src/lib.rs:521-543 | minting in place is the specified mint or its error |
| AssetPallet.Pallet.Burn | crml/generic-asset/src/lib.rs:546-569 | the same for burning |
| AssetPallet.Pallet.Move | crml/generic-asset/src/lib.rs:626-655 | the same for a transfer, in the source's order of checks |
| AssetPallet.Pallet.Reserve | crml/generic-asset/src/lib.rs:679-701 | the same for reserving, dust branch included |
| AssetPallet.Pallet.UnreserveUpTo | crml/generic-asset/src/lib.rs:708-719 | unreserving in place, returning what was not covered |
| AssetPallet.Pallet.SlashUpTo | crml/generic-asset/src/lib.rs:728-738 | slashing free and then reserved balance in place |
| AssetPallet.Pallet.SlashReservedUpTo | crml/generic-asset/src/lib.rs:746-756 | slashing reserved balance in place |
| AssetPallet.Pallet.Repatriate | crml/generic-asset/src/lib.rs:760-783 | moving reserved balance to a beneficiary in place |
| AssetPallet.Pallet.SetFreeTo | crml/generic-asset/src/impls.rs:101-115 | setting a free balance and the imbalance it creates |
| AssetPallet.Pallet.TakeOut | crml/generic-asset/src/impls.rs:130-150 | a withdrawal and the imbalance it creates |
| AssetPallet.Pallet.SquareUp | crml/generic-asset/src/imbalances.rs:199-211 | dropping an imbalance moves the issuance, saturating |
| PegQueueSafety.DelayKeeps | crml/erc20-peg/src/lib.rs:447-479 | delaying a claim by at least one block keeps the queue's order |
| PegQueueSafety.NewBlockKeeps | crml/erc20-peg/src/lib.rs:163-170 | a new block makes its claims ready, behind those already ready |
| PegQueueSafety.PopKeeps | crml/erc20-peg/src/lib.rs:388-408 | processing the first ready claim keeps the queue's order |
| PegQueueSafety.RunKeeps | crml/erc20-peg/src/lib.rs:163-215 | any run of delays, blocks and idle time keeps it: ready blocks are past, ascending and non-empty |
| PegQueueSafety.ClaimsProcessedOnceInOrder | crml/erc20-peg/src/lib.rs:388-479 | over any run each claim waits or was processed exactly once, never before its block, in order of block and id |
| PegQueueSafety.WeightWithinBudget | crml/erc20-peg/src/lib.rs:173-215 | the weight reported for the claims processed is within the remaining weight |
| PegQueuePallet.BatchIsPopN | crml/erc20-peg/src/lib.rs:185-205 | taking the first n claims of a block at once is popping n claims one by one |
| PegQueuePallet.Scheduler.DelayClaim | crml/erc20-peg/src/lib.rs:447-479 | delaying in place is the specified step |
| PegQueuePallet.Scheduler.OnInitialize | crml/erc20-peg/src/lib.rs:163-170 | a new block in place is the specified step |
| PegQueuePallet.Scheduler.ProcessReady | crml/erc20-peg/src/lib.rs:173-215 | the loop over ready blocks, with its u8 counters, pops exactly the allowed number of claims, and no counter wraps |
| PegQueuePallet.Scheduler.OnIdle | crml/erc20-peg/src/lib.rs:173-215 | idle time pops as many claims as the weight pays for and reports no more weight than offered |
| PegSafety.BackedMoves | crml/erc20-peg/src/lib.rs:482-531 | changing one asset's ledger with its deposits and withdrawals keeps the books of every bridged asset |
| PegSafety.CreditKeeps | crml/erc20-peg/src/lib.rs:482-531 | a deposit keeps maps, backing and redeemable claims, creating the asset if needed |
| PegSafety.WithdrawKeeps | crml/erc20-peg/src/lib.rs:315-385 | so does a withdrawal, delayed or not |
| PegSafety.ProcessNextKeeps | crml/erc20-peg/src/lib.rs:388-444 | so does processing a claim |
| PegSafety.BridgedAssetsBacked | crml/erc20-peg/src/lib.rs:315-531 | over any run each bridged asset's issuance squares with its balances and is deposits minus withdrawals plus what operations outside the peg, such as slashes, did to it; other assets may see any operation |
| PegSafety.BackedByDeposits | crml/erc20-peg/src/lib.rs:315-531 | from genesis, the issuance of a bridged asset that is otherwise only moved between accounts is its completed deposits minus its paid withdrawals, whatever happens to other assets |
| PegSafety.TokenMapsInvert | crml/erc20-peg/src/lib.rs:388-531 | over every run the two token maps invert each other on the assets the peg created, and every delayed withdrawal leads to the asset it was paid in |
| PegSafety.DepositReaches | crml/erc20-peg/src/lib.rs:482-531 | a deposit of a bridged token credits the beneficiary with the whole amount and nobody else |
| PegSafety.PaymentTakenFrom | crml/erc20-peg/src/lib.rs:362-385 | a withdrawal of a bridged asset takes the whole amount from the sender and nothing from others |
| PegSafety.QueueStaysSound | crml/erc20-peg/src/lib.rs:388-479 | over any run whose claim delays are at least one block the claim queue keeps its own invariant |
| PegSafety.GenesisSound | crml/erc20-peg/src/lib.rs:94-101 | the genesis state meets all of these invariants |
| PegSafety.StakingNeverWithdrawn | crml/erc20-peg/src/lib.rs:315-360 | the staking asset is never mapped to a token, so its withdrawal is always refused |
| PegAnswers.DepositAnswer | crml/erc20-peg/src/lib.rs:236-261 | a deposit claim is accepted if and only if deposits are active and the amount fits, and waits if and only if its token's asset has a minimum it reaches |
| PegAnswers.WithdrawalAnswer | crml/erc20-peg/src/lib.rs:315-385 | a withdrawal of a bridged asset is accepted if and only if it is active, mapped, not a waiting one from the EVM and free of locks, and waits if and only if it reaches the minimum |
| PegAnswers.StakingDepositPaid | crml/erc20-peg/src/lib.rs:482-531 | an active staking deposit is paid to its beneficiary out of the peg's account, if that has it, without new issuance |
| PegPallet.PegBook.constructor | crml/erc20-peg/src/lib.rs:94-101 | a new asset pallet and scheduler agree with the genesis state, which maps the staking tokens only |
| PegPallet.PegBook.AssetOf | crml/erc20-peg/src/lib.rs:482-505 | a token's asset is found, or created in the asset pallet and mapped both ways |
| PegPallet.PegBook.Issue | crml/generic-asset/src/impls.rs:63-80 | setting the balance and dropping the imbalance leaves the pallet's ledgers as a deposit settled at once |
| PegPallet.PegBook.Destroy | crml/generic-asset/src/impls.rs:130-150 | withdrawing and dropping the imbalance leaves them as a withdrawal settled at once, or unchanged with its error |
| PegPallet.PegBook.HandleDeposit | crml/erc20-peg/src/lib.rs:482-531 | the asset pallet's calls of a deposit leave pallet and scheduler in the specified peg state, or unchanged with its error |
| PegPallet.PegBook.TakePayment | crml/erc20-peg/src/lib.rs:362-385 | the same for taking payment |
| PegPallet.PegBook.Withdraw | crml/erc20-peg/src/lib.rs:315-360 | the same for a withdrawal, paid in the asset pallet and delayed in the scheduler, from the runtime or the EVM |
| PegPallet.PegBook.SubmitDeposit | crml/erc20-peg/src/lib.rs:236-258 | the same for a deposit claim |
| PegPallet.PegBook.OnIdle | crml/erc20-peg/src/lib.rs:173-215 | the scheduler's loop processes claims as the specified peg does, within the weight |
| AssetPallet.Pallet.CreateAsset | crml/generic-asset/src/lib.rs:579-622 | a new asset has no supply and the given permissions; other assets are untouched |
| EthThreshold.ReachesMeaning | runtime/src/lib.rs:628-631 | the rounded percentage reaches the threshold exactly when 100*count >= 66*n |
| EthCallSafety.TallyIsRecount | crml/eth-bridge/src/lib.rs:834-906 | the stored tally stays a recount of the stored votes if and only if the notary had not voted on the call |
| EthCallBallots.TallyFollows | crml/eth-bridge/src/lib.rs:879-881 | bumping the tally counts one more ballot, whoever cast it |
| EthCallBallots.DistinctSupport | crml/eth-bridge/src/lib.rs:846-851 | the distinct notaries whose stored vote is a result never exceed its count, and match it if and only if nobody who voted for it voted again |
| EthCallBallots.OneWinner | crml/eth-bridge/src/lib.rs:883-892 | with at most n counted votes at most one result of the tally reaches the threshold |
| EthCallBallots.CanReachIsExact | crml/eth-bridge/src/lib.rs:894-901 | some seen result can win with all outstanding votes if and only if some way of casting them brings some result, seen or unseen, to the threshold |
| EthCallBallots.WinnableOnce | crml/eth-bridge/src/lib.rs:894-901 | if there are at least n notaries, the winning votes can be cast by those who have not voted, one each |
| EthCallSafety.VoteDecides | crml/eth-bridge/src/lib.rs:879-905 | in any reachable state a vote ends in consensus on exactly the result whose count reaches the threshold, and in giving up exactly when no way of casting the outstanding votes can |
| EthCallSafety.WinsByOne | crml/eth-bridge/src/lib.rs:883-892 | consensus is on the result just voted, whose count was one short before |
| EthCallSafety.ConsensusIsGenuine | crml/eth-bridge/src/lib.rs:834-906 | a delivered consensus has the threshold of distinct notaries behind it if and only if nobody who voted for the result on this call voted again |
| EthCallSafety.GenuineOverRuns | crml/eth-bridge/src/lib.rs:834-906 | the same after any run from the start |
| EthCallSafety.OneNotaryMakesConsensus | crml/eth-bridge/src/lib.rs:834-906 | a run in which one notary of three votes twice and its data is delivered |
| EthCallSafety.CallbackTellsResult | crml/eth-bridge/src/lib.rs:850-864 | the callback is a completion exactly for returned data, and tells results apart except among internal failures |
| EthCallSafety.RunKeeps | crml/eth-bridge/src/lib.rs:834-906 | any run of requests and votes, repeated ones included, keeps the invariant |
| EthCallSafety.EveryCallAnsweredOnce | crml/eth-bridge/src/lib.rs:834-906 | over any run, repeated votes included, every call is active or answered exactly once, counts at most n votes and fewer while active, keeps a tally of all of them and may still be won; nothing is kept of answered calls |
| EthCallSafety.GivenUpCallReportsLastVote | crml/eth-bridge/src/lib.rs:898-901 | a run of three different votes ends with the last one reported as complete |
| EthCallAnswers.VoteReports | crml/eth-bridge/src/lib.rs:834-906 | a vote closes its call if and only if the counted votes are settled, and then exactly one callback reports that vote |
| EthCallAnswers.AnsweredBySettlingVote | crml/eth-bridge/src/lib.rs:834-906 | over any run a call is answered if and only if its counted votes are settled, and its callback reports the data, block and time or the failure of the last of them |
| EthCallPallet.FindConsensus | crml/eth-bridge/src/lib.rs:885-892 | the first loop finds a result with consensus, or there is none and the count is the sum of the tally |
| EthCallPallet.FindHope | crml/eth-bridge/src/lib.rs:894-897 | the second loop tells whether some result could still win |
| EthCallPallet.Decide | crml/eth-bridge/src/lib.rs:883-901 | both loops together give the outcome the tally allows |
| EthCallPallet.CallBook.CheckedEthCall | crml/eth-bridge/src/lib.rs:1090-1114 | a request is queued under the next id |
| EthCallPallet.CallBook.Dequeue | crml/eth-bridge/src/lib.rs:868-874 | the search loop removes the first entry of the call |
| EthCallPallet.CallBook.HandleCallNotarization | crml/eth-bridge/src/lib.rs:834-906 | a vote in place is the specified step with an outcome the tally allows; votes on inactive calls are refused |
| EventClaimSafety.NeverBoth | crml/eth-bridge/src/lib.rs:783-808 | with at most n votes the rejection and approval tests never both hold |
| EventClaimSafety.OrderIrrelevant | crml/eth-bridge/src/lib.rs:753-831 | in a reachable state with at most n notaries, no vote makes both tests hold, so their order is irrelevant |
| EventClaimSafety.SubmitKeeps | crml/eth-bridge/src/lib.rs:345-373 | submitting a claim keeps the maps in step |
| EventClaimSafety.VoteKeeps | crml/eth-bridge/src/lib.rs:753-831 | a vote keeps them in step and succeeds exactly on active claims: the "unexpected empty claim" branches are unreachable |
| EventClaimSafety.PruneFiled | crml/eth-bridge/src/lib.rs:230-242 | pruning keeps the buckets a partition of the processed hashes |
| EventClaimSafety.RunKeeps | crml/eth-bridge/src/lib.rs:345-373 | any run of claims, votes, prunes and deadline changes keeps it all |
| EventClaimSafety.ClaimsAnsweredAtMostOnce | crml/eth-bridge/src/lib.rs:758-831 | over any run EventClaims, EventData and PendingTxHashes are one-to-one, pending and processed hashes disjoint, buckets partition the processed ones, and each claim's subscribers are called at most once, with exactly what was submitted |
| EventClaimSafety.RememberedUnlessPruned | crml/eth-bridge/src/lib.rs:230-242 | a step forgets a processed hash if and only if it prunes the bucket it was filed under |
| EventClaimSafety.RefusedUntilPruned | crml/eth-bridge/src/lib.rs:345-352 | through any run without such a prune, claims with that hash are refused |
| EventClaimSafety.FiledUnderNow | crml/eth-bridge/src/lib.rs:818-821 | the bucket computed for the future expiry is the current bucket |
| EventClaimSafety.ForgottenBySameBucket | crml/eth-bridge/src/lib.rs:233-242 | a hash verified at one time is forgotten by a prune at another if and only if both times fall in the same bucket |
| EventClaimSafety.ForgottenAfterOneSecond | crml/eth-bridge/src/lib.rs:233-242 | with the default deadline, one second later is enough |
| EventClaimOutcome.PendingExactly | crml/eth-bridge/src/lib.rs:753-831 | over any run an undecided claim is still pending if and only if the votes cast on it, the first of each notary, do not decide it |
| EventClaimOutcome.StuckAfterAllVotes | crml/eth-bridge/src/lib.rs:782-805 | with n votes in, neither test holds if and only if 65n < 100*yays < 66n |
| EventClaimOutcome.StuckExactly | crml/eth-bridge/src/lib.rs:753-831 | after any run in which all n notaries voted on a claim, in any order, it is still pending if and only if 65n < 100*yays < 66n |
| EventClaimOutcome.StuckForever | crml/eth-bridge/src/lib.rs:345-352 | such a claim is pending after every later run under the same notary set, and its transaction is refused as a duplicate |
| EventClaimOutcome.StuckFromGenesis | crml/eth-bridge/src/lib.rs:753-831 | a run from genesis to such a claim under one notary set, for every number of validators and yays in the gap |
| EventClaimOutcome.StuckWith23 | crml/eth-bridge/src/lib.rs:753-831 | the run with 15 yays of 23 under one notary set |
| EventClaimOutcome.SmallestGap | crml/eth-bridge/src/lib.rs:782-805 | fewer than 23 validators leave no gap |
| EventClaimOutcome.VerifiedTwice | crml/eth-bridge/src/lib.rs:230-242 | whenever two times share a bucket, a run in which one transaction is verified and its subscribers told of success twice |
| EventClaimVerdict.VoteTells | crml/eth-bridge/src/lib.rs:753-831 | a vote closes its claim if and only if 66% are in favour or 35% are not, tells success and remembers the hash if and only if the former |
| EventClaimVerdict.ToldByVotes | crml/eth-bridge/src/lib.rs:753-831 | over any run a pending claim is told success if and only if the first votes of the notaries that came to decide it were at least 66% in favour, and failure if and only if at least 35% were not |
| EventClaimVerdict.ToldFromStart | crml/eth-bridge/src/lib.rs:345-373 | the same for a claim submitted at any point of any run from the start, told one way only |
| VoteGuard.RunKeeps | crml/eth-bridge/src/lib.rs:980-1021 | calls and claims keep their invariants in any run of both under the check on votes |
| VoteGuard.CallVoteRefused | crml/eth-bridge/src/lib.rs:992-1000 | a call vote is refused if and only if its notary has voted on a pending event claim with the number of the call |
| VoteGuard.StuckClaimBlocksCall | crml/eth-bridge/src/lib.rs:992-1000 | while a claim has the votes of all notaries and is pending, the call with its number gets no vote and no answer, through every later run under the same notary set |
| VoteGuard.BlockedFromGenesis | crml/eth-bridge/src/lib.rs:992-1000 | a run from genesis to such a claim and call, for every number of validators and yays in the gap |
| VoteGuard.FirstCallVoteRefused | crml/eth-bridge/src/lib.rs:992-1000 | a run from genesis in which a notary's first vote on a call is refused |
| VoteGuard.SecondCallVoteAdmitted | crml/eth-bridge/src/lib.rs:992-1000 | a run from genesis in which a notary votes twice on a call and its answer is delivered |
| EventClaimPallet.CountVotes | crml/eth-bridge/src/lib.rs:772-781 | the counting loop counts yays and nays |
| EventClaimPallet.ClaimBook.TypeIdOf | crml/eth-bridge/src/lib.rs:354-364 | an event type has one id, assigned on first sight |
| EventClaimPallet.ClaimBook.SubmitEventClaim | crml/eth-bridge/src/lib.rs:345-373 | submitting in place is the specified step or its error |
| EventClaimPallet.ClaimBook.HandleEventNotarization | crml/eth-bridge/src/lib.rs:753-831 | a vote in place is the specified step or its error |
| EventClaimPallet.ClaimBook.PruneProcessed | crml/eth-bridge/src/lib.rs:229-242 | every 720 blocks the loop empties the expired bucket and forgets its hashes |
| NotarySetSafety.GenerateKeeps | crml/eth-bridge/src/lib.rs:375-397 | a new proof is logged or delayed, in one place |
| NotarySetSafety.ReleaseAllKeeps | crml/eth-bridge/src/lib.rs:244-253 | releasing delayed proofs keeps every id in one place |
| NotarySetSafety.RunKeeps | crml/eth-bridge/src/lib.rs:913-974 | over any run proof ids are in one place, and non-empty next keys are those last announced, for the next set id |
| NotarySetSafety.ProofIdsNeverLost | crml/eth-bridge/src/lib.rs:375-397 | from genesis every proof id is logged exactly once or delayed, and no signing request is logged while paused |
| NotarySetSafety.RequestsNameTheirSet | crml/eth-bridge/src/lib.rs:375-397 | over any run from genesis a logged signing request names the notary set in force if and only if its proof was asked for while the bridge was active, and an earlier set otherwise |
| NotarySetSafety.LateProofNamesOldSet | crml/eth-bridge/src/lib.rs:244-253 | a run in which a proof packed for set 0 is requested under set 1 |
| NotarySetSafety.StepKeepsKeys | crml/eth-bridge/src/lib.rs:913-966 | which operations announce the next set, and that the kept keys follow the announcement |
| NotarySetSafety.EraEndInstalls | crml/eth-bridge/src/lib.rs:1063-1076 | ending an era installs the announced keys and id if and only if the next set was announced, and no keys otherwise |
| NotarySetSafety.UnannouncedEraLosesKeys | crml/eth-bridge/src/lib.rs:1063-1076 | a bridge with a key that has none after an unannounced era end |
| NotarySetSafety.InstalledAsAnnounced | crml/eth-bridge/src/lib.rs:1045-1076 | over any session sequence, forced eras included, every installed set is the one last announced if and only if every era that ends was announced |
| NotarySetSafety.BacklogDrains | crml/eth-bridge/src/lib.rs:244-253 | after k active blocks without new delays the backlog has fallen by k times the limit, down to zero |
| NotarySetChoice.RunAnnounces | crml/eth-bridge/src/lib.rs:913-966 | over any run the announced sets are, in order, the queued keys of sessions before the last one of an era and the validators of last sessions with nothing kept |
| NotarySetChoice.RunInstalls | crml/eth-bridge/src/lib.rs:1063-1076 | the keys installed at each era's end are those of the last such session |
| NotarySetChoice.RunPauses | crml/eth-bridge/src/lib.rs:948-964 | the bridge is paused from the start of an era's last session, unless the next one is said to be the last as well, to the era's end |
| NotarySetChoice.QueuedBecomeKeys | crml/eth-bridge/src/lib.rs:948-951 | the keys queued when the last but one session starts are in force when the era ends |
| NotarySetChoice.ForcedEraKeeps | crml/eth-bridge/src/lib.rs:952-964 | in a forced era the validators of its last session are installed |
| NotarySetChoice.RunPacks | crml/eth-bridge/src/lib.rs:375-397 | over any run what is signed under a proof id is the event it was asked for, with the set in force then |
| NotarySetPallet.ProofBook.GenerateEventProof | crml/eth-bridge/src/lib.rs:375-397 | generating in place is the specified step |
| NotarySetPallet.ProofBook.ProcessDelayed | crml/eth-bridge/src/lib.rs:244-253 | the loop releases, in any storage order, as many delayed proofs as the limit allows |
| NotarySetPallet.ProofBook.OnNewSession | crml/eth-bridge/src/lib.rs:913-966 | a new session in place is the specified step |
| NotarySetPallet.ProofBook.OnBeforeSessionEnding | crml/eth-bridge/src/lib.rs:1063-1076 | a session ending in place is the specified step |
| OracleSafety.AskKeeps | crml/eth-state-oracle/src/lib.rs:620-659 | a new request, also one made inside a callback, keeps every request in its place |
| OracleSafety.AcceptKeeps | crml/eth-state-oracle/src/lib.rs:342-387 | a response moves its request from the expiry to the validity schedule |
| OracleSafety.ResignKeeps | crml/eth-state-oracle/src/lib.rs:304-322 | unbonding never leaves a response without its bond |
| OracleSafety.ResignChallengerKeeps | crml/eth-state-oracle/src/lib.rs:410-428 | unbonding a challenger never leaves a challenge without its bond |
| OracleSafety.BlockKeeps | crml/eth-state-oracle/src/lib.rs:179-206 | a block moves due responses to the queue and drops due requests |
| OracleSafety.CallBacksKeep | crml/eth-state-oracle/src/lib.rs:209-276 | whatever is queued or challenged, the loop keeps schedules, storage, histories and bonds in order |
| OracleSafety.CallBacksServe | crml/eth-state-oracle/src/lib.rs:209-276 | after the loop those that ran no longer wait for a callback and all others do as before |
| OracleSafety.CallBacksSucceed | crml/eth-state-oracle/src/lib.rs:209-276 | while the queued ids are waiting none misses its request or response, and the loop stops only when all unchallenged ones ran or the next does not fit |
| OracleSafety.CallBacksInOrder | crml/eth-state-oracle/src/lib.rs:209-276 | what runs is a front part of the queue with the challenged ids left out, in its order |
| OracleSafety.CallBacksWithinBudget | crml/eth-state-oracle/src/lib.rs:209-276 | if callbacks keep to their gas limits the reported weight is within the remaining weight or the fixed cost |
| OracleSafety.RunKeeps | crml/eth-state-oracle/src/lib.rs:179-459 | any run of all operations, challenges included, keeps schedules, storage, histories and bonds in order |
| OracleSafety.RequestsAccountedFor | crml/eth-state-oracle/src/lib.rs:179-459 | in every reachable state relayers of responses and challengers of challenges are bonded, and requests that are gone lapsed or were called back once, not both |
| OracleTiming.RespondAnswer | crml/eth-state-oracle/src/lib.rs:342-387 | a response is accepted if and only if its relayer is bonded, the request open and unanswered, and its time within 15 seconds per block of drift |
| OracleTiming.ResponseStands | crml/eth-state-oracle/src/lib.rs:179-459 | an accepted response stands unchanged and contestable for exactly the challenge period in blocks, whatever else happens, and is then queued |
| OracleTiming.RequestLives | crml/eth-state-oracle/src/lib.rs:179-459 | a request nobody answers lives for exactly that period and then lapses |
| OracleTiming.RelayerRoundTrip | crml/eth-state-oracle/src/lib.rs:280-322 | bonding and unbonding a relayer leaves everything as it was |
| OracleTiming.ChallengerRoundTrip | crml/eth-state-oracle/src/lib.rs:392-428 | so does bonding and unbonding a challenger |
| OracleQueue.TidyMeansInTurn | crml/eth-state-oracle/src/lib.rs:221-273 | no challenged id is among those dropped if and only if none precedes a callback that ran |
| OracleQueue.IdleInStep | crml/eth-state-oracle/src/lib.rs:209-276 | idle time leaves the queue listing exactly the requests waiting for a callback if and only if no challenged id is among those dropped |
| OracleQueue.LostForGood | crml/eth-state-oracle/src/lib.rs:179-459 | a request waiting for a callback that the queue does not list is in that state after every later run |
| OracleQueue.RunInStep | crml/eth-state-oracle/src/lib.rs:179-459 | over any run the queue lists exactly the requests waiting for a callback if and only if this held at every idle time |
| OracleQueue.RequestsInOnePlace | crml/eth-state-oracle/src/lib.rs:179-459 | after any run from the start every live request awaits exactly one of expiry, validity or callback, if and only if this held at every idle time |
| OracleQueue.UnchallengedRunTidy | crml/eth-state-oracle/src/lib.rs:209-276 | it does in every run without challenges |
| OracleQueue.ChallengedCallbackLost | crml/eth-state-oracle/src/lib.rs:221-273 | a run in which the first of two queued responses is challenged: it is lost, and the next idle time misses a request |
| OraclePallet.StateOracle.OnInitialize | crml/eth-state-oracle/src/lib.rs:179-206 | both loops of a new block are the specified step |
| OraclePallet.StateOracle.Request | crml/eth-state-oracle/src/lib.rs:620-659 | a request in place is the specified one or its error |
| OraclePallet.StateOracle.BondRelayer | crml/eth-state-oracle/src/lib.rs:280-300 | bonding in place is the specified step or its error |
| OraclePallet.StateOracle.UnbondRelayer | crml/eth-state-oracle/src/lib.rs:304-322 | unbonding in place is the specified step or its error |
| OraclePallet.StateOracle.SubmitCallResponse | crml/eth-state-oracle/src/lib.rs:342-387 | a response in place is the specified one or its error |
| OraclePallet.StateOracle.BondChallenger | crml/eth-state-oracle/src/lib.rs:392-406 | bonding in place is the specified step or its error |
| OraclePallet.StateOracle.UnbondChallenger | crml/eth-state-oracle/src/lib.rs:410-428 | unbonding in place is the specified step or its error |
| OraclePallet.StateOracle.SubmitResponseChallenge | crml/eth-state-oracle/src/lib.rs:436-459 | a challenge in place is the specified one or its error |
| OraclePallet.StateOracle.RunCallbacks | crml/eth-state-oracle/src/lib.rs:221-271 | the loop passes over challenged ids and runs the others as specified, and tells when a request or response is missing |
| OraclePallet.StateOracle.OnIdle | crml/eth-state-oracle/src/lib.rs:209-276 | idle time in place is the specified step, and succeeds whenever the queue is in step |
| EthWallet.DigitsDenote | crml/eth-wallet/src/ethereum.rs:43-54 | the digits are decimal, without leading zeros, and denote the length |
| EthWallet.DigitsUnique | crml/eth-wallet/src/ethereum.rs:43-54 | they are the only such digits |
| EthWallet.SignableInjective | crml/eth-wallet/src/ethereum.rs:43-54 | no two messages have the same encoding |
| EthWallet.DecimalIsDigits | crml/eth-wallet/src/ethereum.rs:43-54 | the digits of a positive length are its ordinary decimal notation |
| EthWallet.MatchesEip191 | crml/eth-wallet/src/ethereum.rs:43-54 | the encoding is the prefix, the length in ordinary decimal notation and the message, as in EIP-191, section "Version 0x45 (E)", if and only if the message is not empty |
| EthWallet.SignableMessage | crml/eth-wallet/src/ethereum.rs:43-54 | the loop produces the prefix, the digits and the message |

## Left out

- Arithmetic overflow of the plain multiplications in add_liquidity and remove_liquidity; the model computes them exactly.
- Dust reclaim on exchange pool accounts and traders: exchange balances move without an existential deposit.
- The f32 product behind the witness threshold, taken as floor(3n/5).
- Changes of the validator set while an event is being voted on, and the bridge's activation threshold.
- The resolution of state-oracle challenges, unimplemented in the source, the checked eth_call a challenge asks for with its wrapping age, and the payments of a callback.
- A zero event deadline, which makes the source's remainder fail.
- Offchain workers, the Ethereum client, signatures, hashing, ABI and SCALE encoding.
- Storing locks: set_lock, extend_lock and remove_lock are modelled on the list of locks, not as updates of the storage map.
- Event emission and weights, except where the log or the weight is the property.
- EthyWorker.Worker.Handle: not for a key outside a set of fewer than two validators, where the source fails on a missing record.
- EthCallBallots.WinnableOnce: needs at least as many notary keys as validators; with fewer, the source counts outstanding votes that cannot come.
- PegSafety.BridgedAssetsBacked: for deposits that fit the u128 issuance and runs without the operations that unbalance a bridged asset's books.
- PegSafety.BackedByDeposits: under the same conditions.
- AssetStatements.StatementBalances: for a supply that fits the u128 balances.
- EventClaimOutcome.StuckForever: under one notary set; the votes of new keys are not modelled.
- CennzxSafety.ValuePerShareNeverFalls: two-hop buys into the pool must be covered; BuyStep gives the exact condition.
