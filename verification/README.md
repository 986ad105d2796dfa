# Verified model of the settlement platform

A Dafny model of the parts of the crypto-to-fiat settlement platform that hold real state,
protocols, arithmetic and codecs, with proofs of what they promise over every input and every run.
`dafny verify dfyconfig.toml` checks the whole project.

| file | models |
|---|---|
| `Prelude.dfy` | options, results, fixed-width integers with the contracts' saturating arithmetic |
| `PaymentEscrow.dfy`, `PaymentEscrowContract.dfy`, `PaymentEscrowProofs.dfy`, `PaymentEscrowCalls.dfy` | the escrow contract: calls as a step function, the contract and token objects that carry them out, invariants over all runs, and who may call what |
| `Reconciliation.dfy` | Merkle roots and settlement proofs |
| `EventIndexer.dfy`, `EventIndexerProofs.dfy` | the Soroban event indexer against a growing remote log |
| `RateLimit.dfy` | the sliding-window rate limiter |
| `BatchSettlement.dfy`, `BatchSettlementProofs.dfy`, `BatchSettlementRuns.dfy` | batching of small payments, and the payment and settlement tables over all runs |
| `Base32.dfy` | base32 with an unmasked 32-bit accumulator |
| `Decimal.dfy` | six-place decimal strings and their units |
| `RevenueRanges.dfy` | revenue ranges, the UTC calendar under them, and the revenue series |
| `FeeCalculator.dfy` | tiered fees over a resetting ledger window |
| `SettlementLedger.dfy` | append-only records, per-merchant indexes and pages |

Where the source changes state, a class holds its fields and every method's postcondition equates
the new state with a specification function of the old one; the theorems are about those functions,
and state what is accepted, kept and answered in terms of the arguments and of the history alone.
A panic or exception is an error value that leaves the state alone.

## What the proofs turned up

- The escrow is solvent in a token exactly when drains of that token took no more than outsiders
  gave (`SolventExactlyWhen`). Only the token configured as USDC can be drained, and a drain strands
  every open payment in it; when both assets are configured with one token address, those of the
  other asset too (`DrainStrandsOpenPayments`).
- `normalizeDecimal` is not idempotent on every string: `++5` becomes `+5.000000` and then
  `5.000000`. `IdempotentExactlyWhen` gives the exact condition, and every decimal meets it. The
  service itself only passes decimals, which its queries cast to text.
- `Date.UTC` moves the years 0 to 99 to the twentieth century, so revenue ranges asked for there
  do not adjoin, and the previous range before January of the year 100 is labelled as ending in 1999.
  `DailyRangesAdjoin`, `MonthlyRangesAdjoin` and `LabelsFitExactlyWhen` give the parameters for which they fit.
- The bound of 20 dollars on a batch needs no positive amounts: it follows from the previous prefix
  not having fired and the selected amount being under 10 dollars (`BatchesAreSound`).

Three exceptions that the theorems name are of no practical weight. A drain at ledger 0 is stored as
"never drained" (`NextDrainExactlyWhen`), but the first ledger of a Stellar network has number 1. The
page of `list_settlements` that starts at 4,294,967,280 panics (`OverflowIsReached`), but no stored
vector will hold that many ids. A negative number, unlike its string, loses its sign in
`normalizeDecimal` (`NumberKeepsSignExactlyWhen`), but no caller passes a number.

## Model

| member | source | states |
|---|---|---|
| `PaymentEscrow.Transfer` | dabdub_contracts/contracts/payment_escrow/src/lib.rs:596-600 | a token transfer succeeds exactly when the sender has the funds and the receiver the room, and then changes exactly those two balances |
| `PaymentEscrow.RequireReleasable` | dabdub_contracts/contracts/payment_escrow/src/lib.rs:562-575 | passes exactly for a pending payment up to its expiry; "fully released" is said exactly of released ones |
| `PaymentEscrow.RequireExpirable` | dabdub_contracts/contracts/payment_escrow/src/lib.rs:577-590 | passes exactly for a pending payment after its expiry |
| `PaymentEscrowContract.Contract.Deploy` | dabdub_contracts/contracts/payment_escrow/src/lib.rs:94-147 | deploys exactly for a valid configuration, with no payments |
| `PaymentEscrowContract.Contract.Deposit` | dabdub_contracts/contracts/payment_escrow/src/lib.rs:183-269 | new state and outcome are those of the deposit step |
| `PaymentEscrowContract.Contract.Release` | dabdub_contracts/contracts/payment_escrow/src/lib.rs:271-297 | new state and outcome are those of the release step |
| `PaymentEscrowContract.Contract.ReleasePartial` | dabdub_contracts/contracts/payment_escrow/src/lib.rs:299-334 | new state and outcome are those of the partial release step |
| `PaymentEscrowContract.Contract.Expire` | dabdub_contracts/contracts/payment_escrow/src/lib.rs:336-359 | new state and outcome are those of the expiry step |
| `PaymentEscrowContract.Contract.Refund` | dabdub_contracts/contracts/payment_escrow/src/lib.rs:361-384 | new state and outcome are those of the refund step |
| `PaymentEscrowContract.Contract.Dispute` | dabdub_contracts/contracts/payment_escrow/src/lib.rs:386-416 | new state and outcome are those of the dispute step |
| `PaymentEscrowContract.Contract.ResolveDispute` | dabdub_contracts/contracts/payment_escrow/src/lib.rs:418-458 | new state and outcome are those of the resolution step |
| `PaymentEscrowContract.Contract.EmergencyDrain` | dabdub_contracts/contracts/payment_escrow/src/lib.rs:503-553 | new state, drained amount and outcome are those of the drain step |
| `PaymentEscrowContract.Contract.TransferFromContract` | dabdub_contracts/contracts/payment_escrow/src/lib.rs:596-600 | moves the payment's own token out of the contract, or fails and moves nothing |
| `PaymentEscrowProofs.StepKind` | dabdub_contracts/contracts/payment_escrow/src/lib.rs:183-458 | every call does one of six things: nothing, deposit, pay one party, open a dispute, drain, or an outside transfer, with its whole effect on payments, balances and log |
| `PaymentEscrowProofs.ReachableInv` | dabdub_contracts/contracts/payment_escrow/src/lib.rs:183-553 | in every reachable state the log explains every balance, funds match obligations, every payment is audited, every movement went between the right parties, and drains are spaced |
| `PaymentEscrowProofs.FundsMatchObligations` | dabdub_contracts/contracts/payment_escrow/src/lib.rs:183-553 | per token address and over every run: contract balance + drained = sum of amount - released over that token's payments + donations + initial balance |
| `PaymentEscrowProofs.SolventExactlyWhen` | dabdub_contracts/contracts/payment_escrow/src/lib.rs:503-553 | the contract can pay all it owes in a token exactly when drains took no more than outsiders gave; without drains always |
| `PaymentEscrowProofs.PaymentAccounted` | dabdub_contracts/contracts/payment_escrow/src/lib.rs:271-458 | per payment over every run: paid to merchant + paid to customer + remaining = deposited; released < amount exactly while open; Released exactly when the merchant got all, Expired exactly when the customer got something |
| `PaymentEscrowProofs.PaymentEvolves` | dabdub_contracts/contracts/payment_escrow/src/lib.rs:271-458 | over every continuation: terms are fixed, payouts only grow, Released and Expired are absorbing, a dispute ends only by closing |
| `PaymentEscrowProofs.RemainingIsFunded` | dabdub_contracts/contracts/payment_escrow/src/lib.rs:592-600 | absent drains of its token, what a payment is still owed is in the contract |
| `PaymentEscrowProofs.PayoutNeverShort` | dabdub_contracts/contracts/payment_escrow/src/lib.rs:271-384 | absent drains of its token, no payout lacks funds, and "fully released" is only said of a Released payment |
| `PaymentEscrowProofs.OpenPaymentHasWayOut` | dabdub_contracts/contracts/payment_escrow/src/lib.rs:562-590 | at every ledger exactly one of release and expiry is open to a pending payment and a disputed one can be resolved either way; for every caller, a release or a resolution succeeds exactly if the caller is the admin, status and ledger allow it and the receiver has room, and a refund under its own such conditions |
| `PaymentEscrowProofs.PartialReleaseExactlyWhen` | dabdub_contracts/contracts/payment_escrow/src/lib.rs:299-334 | a partial release succeeds exactly for the admin, for the amounts still owed, while releasable |
| `PaymentEscrowProofs.DisputeOnlyBeforeExpiry` | dabdub_contracts/contracts/payment_escrow/src/lib.rs:386-403 | in every reachable state a dispute can only be opened by a party while the payment is still releasable |
| `PaymentEscrowProofs.DepositTermsHold` | dabdub_contracts/contracts/payment_escrow/src/lib.rs:229-258 | whatever is called after a deposit, its terms alone decide until when the payment can be released (now + ttl) or disputed (the earlier of that and now + 51,840), and by whom |
| `PaymentEscrowProofs.DrainTakesAll` | dabdub_contracts/contracts/payment_escrow/src/lib.rs:503-553 | a drain moves the whole USDC balance to the treasury, which the constructor allows to be the contract itself, and leaves the payments owed |
| `PaymentEscrowProofs.DrainLeavesSolventExactlyWhen` | dabdub_contracts/contracts/payment_escrow/src/lib.rs:503-553 | in every reachable state, after a drain to elsewhere the contract can pay what it owes in that token exactly if it owes nothing in it |
| `PaymentEscrowProofs.DrainStrandsOpenPayments` | dabdub_contracts/contracts/payment_escrow/src/lib.rs:503-553 | every open payment in the drained token, whichever asset it is in, then lacks the funds for its release or refund |
| `PaymentEscrowProofs.DrainsKeepCooldown` | dabdub_contracts/contracts/payment_escrow/src/lib.rs:514-529 | over every run two drains are a cooldown apart, unless the earlier one ran at ledger 0 |
| `PaymentEscrowProofs.NextDrainExactlyWhen` | dabdub_contracts/contracts/payment_escrow/src/lib.rs:503-553 | after a drain at a ledger and any calls but drains, the next drain succeeds exactly when its two signers, balance and room allow it and the cooldown is over or that ledger was 0 |
| `PaymentEscrowProofs.DrainsMayRepeatAtZero` | dabdub_contracts/contracts/payment_escrow/src/lib.rs:514-529 | with every accepted configuration two drains can follow each other at ledger 0 |
| `PaymentEscrowCalls.MoneyLeavesOnlyBy` | dabdub_contracts/contracts/payment_escrow/src/lib.rs:271-553 | over every run, money leaves a payment only by a call of the admin or after its expiry, and the contract's tokens leave only so or by a drain that two different signers signed |
| `PaymentEscrowCalls.OnlyAdminDecides` | dabdub_contracts/contracts/payment_escrow/src/lib.rs:271-458 | in every state, releasing in whole or in part and resolving a dispute fail with "Not admin" for everyone else and change nothing |
| `PaymentEscrowCalls.DepositExactlyWhen` | dabdub_contracts/contracts/payment_escrow/src/lib.rs:183-269 | a deposit is accepted exactly with a positive amount, a TTL of 1 to 518,400 ledgers, a new id, an approved merchant, and funds in the asset's token; each refusal is the first check that fails |
| `PaymentEscrowCalls.DeploysExactlyWhen` | dabdub_contracts/contracts/payment_escrow/src/lib.rs:94-147 | a configuration is accepted exactly with a positive TTL and cooldown and three different signers |
| `PaymentEscrowCalls.ReleaseRefusals` | dabdub_contracts/contracts/payment_escrow/src/lib.rs:271-297 | what a release by the admin is refused with, for each status |
| `PaymentEscrowCalls.PartialReleaseRefusals` | dabdub_contracts/contracts/payment_escrow/src/lib.rs:299-334 | what a partial release by the admin is refused with, for each status and amount |
| `PaymentEscrowCalls.RefundRefusals` | dabdub_contracts/contracts/payment_escrow/src/lib.rs:336-384 | what an expiry or a refund, which do the same, is refused with, for each status |
| `PaymentEscrowCalls.DisputeRefusals` | dabdub_contracts/contracts/payment_escrow/src/lib.rs:386-416 | what a dispute is refused with, by status, caller and ledger |
| `PaymentEscrowCalls.ResolveRefusals` | dabdub_contracts/contracts/payment_escrow/src/lib.rs:418-458 | what a resolution by the admin is refused with, by status and winner |
| `PaymentEscrowCalls.DrainRefusals` | dabdub_contracts/contracts/payment_escrow/src/lib.rs:503-553 | what a drain is refused with: signers first, then the cooldown, then an empty balance |
| `Reconciliation.Contract.SubmitMerkleRoot` | dabdub_contracts/contracts/reconciliation/src/lib.rs:46-65 | the admin replaces the stored batch, nobody else does |
| `Reconciliation.Contract.VerifySettlement` | dabdub_contracts/contracts/reconciliation/src/lib.rs:68-86 | reports a mismatch exactly when the proof leads to another root than the submitted one |
| `Reconciliation.PathAuthenticates` | dabdub_contracts/contracts/reconciliation/src/lib.rs:68-86 | every leaf of every tree has an authentication path |
| `Reconciliation.GenuinePathAccepted` | dabdub_contracts/contracts/reconciliation/src/lib.rs:68-113 | every authentication path of the submitted tree is accepted, and only leaves have one |
| `Reconciliation.AcceptedIsGenuineOrCollision` | dabdub_contracts/contracts/reconciliation/src/lib.rs:68-113 | an accepted proof is a genuine path, or walking the tree against it yields two byte strings with one digest |
| `Reconciliation.StrangerNeedsCollision` | dabdub_contracts/contracts/reconciliation/src/lib.rs:68-113 | an id that is no leaf is accepted only with such a collision |
| `Reconciliation.RootCommits` | dabdub_contracts/contracts/reconciliation/src/lib.rs:99-113 | two different trees behind one root yield a collision |
| `EventIndexerProofs.PageHoldsNextWanted` | backend/src/stellar/soroban-event-indexer.service.ts:177-219 | a page holds at most 200 events, all asked for and without gaps, and leaves out one asked for only when it is full and the event comes after it |
| `EventIndexer.Indexer.HandleEvents` | backend/src/stellar/soroban-event-indexer.service.ts:73-82 | the events handled, whether the page completed and the latest ledger seen are those of the page specification |
| `EventIndexerProofs.HandleEventFits` | backend/src/stellar/soroban-event-indexer.service.ts:99-175 | one event is emitted exactly if its payload has what it needs and its listeners succeed, and stops the page exactly if neither that nor the dead-letter queue takes it |
| `EventIndexerProofs.PageHandledExactly` | backend/src/stellar/soroban-event-indexer.service.ts:73-82 | a page is handled in order, each event as its payload and its listeners decide, up to its end, to the first event that stops it, or to where the process dies |
| `EventIndexer.Indexer.HandleNextPage` | backend/src/stellar/soroban-event-indexer.service.ts:68-86 | one round of the page loop: what was handled, and whether to abort, stop or go on from which token |
| `EventIndexerProofs.RoundEndsExactly` | backend/src/stellar/soroban-event-indexer.service.ts:68-86 | a round aborts exactly if the RPC fails or an event of its page stops it or is never reached, and otherwise goes on exactly after a full page |
| `EventIndexer.Indexer.SweepAllPages` | backend/src/stellar/soroban-event-indexer.service.ts:62-87 | the page loop equals the recursive sweep over the script of the outside world |
| `EventIndexer.Indexer.PollEvents` | backend/src/stellar/soroban-event-indexer.service.ts:49-97 | a poll that is not skipped equals the poll specification and always releases the polling flag |
| `EventIndexerProofs.EmittedFits` | backend/src/stellar/soroban-event-indexer.service.ts:99-175 | over every run an event is skipped exactly if its topics begin with neither of the two; one of those topics with its reference, hash or settlement id missing or blank, or an amount that is no number, is dead-lettered; and listeners are given each payload's own fields, 0 and "USDC" standing in for a missing amount and asset, on the channel of its topic |
| `EventIndexerProofs.SweepCovers` | backend/src/stellar/soroban-event-indexer.service.ts:67-87 | a sweep handles consecutive events from its start, each once and with the fate it calls for, and all of them up to the tip if it finishes |
| `EventIndexerProofs.PollCovers` | backend/src/stellar/soroban-event-indexer.service.ts:49-97 | a poll starts right after the events up to the cursor; an aborted one keeps the cursor, a finished one has caught up with the tip |
| `EventIndexerProofs.NothingMissed` | backend/src/stellar/soroban-event-indexer.service.ts:49-97 | over every run, with aborts, crashes and lost cursors, every event up to the cursor was handled, each with a fate that topic and payload call for, so that only events of neither topic were skipped |
| `EventIndexerProofs.ExactlyOnce` | backend/src/stellar/soroban-event-indexer.service.ts:49-97 | when no poll aborts and the cursor is kept, the handled events are exactly those up to the cursor, once each and in order |
| `EventIndexerProofs.CursorNeverGoesBack` | backend/src/stellar/soroban-event-indexer.service.ts:89-93 | the cursor never decreases while it is kept, and a finished poll sets it to the tip |
| `EventIndexerProofs.CalmPollCatchesUp` | backend/src/stellar/soroban-event-indexer.service.ts:62-97 | progress: after every run a poll in which the RPC answers and nothing gets stuck, given more rounds than full pages to read, ends with the tip as its cursor and every event handled |
| `RateLimit.LimitOf` | backend/src/auth/rate-limit.service.ts:13-26 | which roles have which limit; a role without its own gets the merchant's, and no limit is zero |
| `RateLimit.Limiter.CheckApiKeyRateLimit` | backend/src/auth/rate-limit.service.ts:25-65 | the stored sets and the reply are those of the request specification |
| `RateLimit.TrimmedSetIsRecentGrants` | backend/src/auth/rate-limit.service.ts:34-38 | over every run the trimmed set is exactly the times in the last hour of the requests whose replies allowed them, also after Redis dropped an expired key |
| `RateLimit.EvictionUnseen` | backend/src/auth/rate-limit.service.ts:54-56 | dropping a key whose TTL ran out changes neither reply nor state |
| `RateLimit.WindowNeverOverLimit` | backend/src/auth/rate-limit.service.ts:25-65 | for every run and every time t at most the limit of requests is allowed at times in (t - 3600, t] |
| `RateLimit.DecidedByHistory` | backend/src/auth/rate-limit.service.ts:34-65 | over every run each reply follows from the times of the merchant's allowed requests: allowed exactly when fewer than its limit fell in the last hour, with `remaining` counting them and `resetAt` an hour on; denied with `resetAt` an hour after the oldest of that hour; both with the limit of the role |
| `RateLimit.ResetIsExact` | backend/src/auth/rate-limit.service.ts:40-52 | after a denial every request strictly before `resetAt` is denied, the first one at or after it is allowed, and `retryAfter` lies in 1..3600 |
| `RateLimit.FullLimitAfterReset` | backend/src/auth/rate-limit.service.ts:58-64 | what `resetAt` promises an allowed request: if nothing more is allowed after it, the full limit is there again from then on |
| `BatchSettlement.SettlementsService.InitiateSettlement` | backend/src/settlements/settlements.service.ts:62-115 | a payment of 10 dollars or more gets a settlement of its own, a smaller one waits |
| `BatchSettlement.SettlementsService.CreateBatchSettlement` | backend/src/settlements/settlements.service.ts:182-229 | both tables, queue and alerts become those of the creation specification |
| `BatchSettlement.SettlementsService.FlushMerchantBatch` | backend/src/settlements/settlements.service.ts:152-180 | the state is that of settling, in turn, the batches of the payments in order of time |
| `BatchSettlement.SettlementsService.GroupByMerchant` | backend/src/settlements/settlements.service.ts:140-145 | groups in order of first appearance, each the merchant's payments in the order found |
| `BatchSettlement.SettlementsService.BatchSmallConfirmedPayments` | backend/src/settlements/settlements.service.ts:121-150 | the state is that of settling, in turn, the batches of every merchant |
| `BatchSettlementProofs.SortIsStable` | backend/src/settlements/settlements.service.ts:153-157 | sorting orders payments by time, keeps all of them and the order among those of one moment |
| `BatchSettlementProofs.StableOrderUnique` | backend/src/settlements/settlements.service.ts:153-157 | only one sequence is such a stable order |
| `BatchSettlementProofs.MerchantsInOrder` | backend/src/settlements/settlements.service.ts:140-150 | the merchants take their turn in the order of their first payments |
| `BatchSettlementProofs.GroupInOrder` | backend/src/settlements/settlements.service.ts:140-145 | a group keeps its payments in the order they were found |
| `BatchSettlementProofs.CutsExactly` | backend/src/settlements/settlements.service.ts:159-179 | the batches end exactly where a greedy choice ends them: each as soon as its total reaches 10 dollars, it has 50 payments, or its oldest payment is 15 minutes old at the reading for its last one, and not before |
| `BatchSettlementProofs.BatchesFlushWhenDue` | backend/src/settlements/settlements.service.ts:159-179 | every flushed batch meets one of those three bounds, has at most 50 payments, and no proper prefix of it met any |
| `BatchSettlementProofs.BatchesPartition` | backend/src/settlements/settlements.service.ts:159-179 | a merchant's batches followed by the retained tail are its time-sorted payments |
| `BatchSettlementProofs.BatchesAreSound` | backend/src/settlements/settlements.service.ts:159-179 | every batch has 1 to 50 payments and totals under 20 dollars |
| `BatchSettlementProofs.TailIsYoung` | backend/src/settlements/settlements.service.ts:162-172 | the retained tail totals under 10 dollars, has under 50 payments, and none was 15 minutes old at the last reading of the clock |
| `BatchSettlementProofs.BatchNeedsNoApproval` | backend/src/settlements/settlements.service.ts:187-200 | no batch reaches the approval branch, its fee is 1.5% of its total, and fee plus net is the total |
| `BatchSettlementProofs.ApprovalExactlyFrom` | backend/src/settlements/settlements.service.ts:71-114 | a payment under 10 dollars is left alone; any other gets one settlement, which waits for approval and raises an alert exactly from 10152.284264 dollars on and is queued otherwise |
| `BatchSettlementProofs.RoundingWithinHalf` | backend/src/settlements/settlements.service.ts:187-208 | the rounded fees of n payments differ from their settlement's fee by at most n/2 micro-dollars |
| `BatchSettlementProofs.RoundingBoundReached` | backend/src/settlements/settlements.service.ts:204-208 | that bound is reached, for every n |
| `BatchSettlementProofs.RunBatchesSound` | backend/src/settlements/settlements.service.ts:121-180 | every batch of a run is one merchant's, of 1 to 50 payments, under 20 dollars |
| `BatchSettlementProofs.RunBatchesDisjoint` | backend/src/settlements/settlements.service.ts:121-180 | no payment is in two batches of a run, and every one was found |
| `BatchSettlementRuns.RunPartitions` | backend/src/settlements/settlements.service.ts:121-180 | the batches of a run together with what it keeps back are what it found, as multisets |
| `BatchSettlementRuns.RunSettles` | backend/src/settlements/settlements.service.ts:182-209 | a run adds one settlement for each batch, marks exactly the batches' payments with it, and changes no other row |
| `BatchSettlementRuns.RunQueuesAll` | backend/src/settlements/settlements.service.ts:215-228 | every settlement of a run is queued once and in order, and none raises an approval alert |
| `BatchSettlementRuns.OldPaymentsAreSettled` | backend/src/settlements/settlements.service.ts:121-180 | a payment that was confirmed, unlinked, under 10 dollars and 15 minutes old when a run began is being settled by a settlement of that run, at a fee within half a micro-dollar of 1.5% and otherwise unchanged |
| `BatchSettlementRuns.RunChangesOnlyEligible` | backend/src/settlements/settlements.service.ts:121-150 | a run changes only payments that were confirmed, unlinked and under 10 dollars |
| `BatchSettlementRuns.OneReadingEach` | backend/src/settlements/settlements.service.ts:159-172 | a run reads the clock once for each payment it found |
| `BatchSettlementRuns.TablesAgree` | backend/src/settlements/settlements.service.ts:62-229 | over every history of runs, single settlements and other changes, each settlement's total is the sum of exactly the payments linked to it, all of its merchant |
| `BatchSettlementRuns.SettledOnce` | backend/src/settlements/settlements.service.ts:121-131 | a payment once linked to a settlement keeps it: it is never settled again |
| `Base32.Base32Encode` | backend/src/admin/admin.service.ts:387-404 | the output spells the buffer's bits in groups of five, the last filled with zeros, as section 6 of RFC 4648 without padding |
| `Base32.Base32Decode` | backend/src/admin/admin.service.ts:406-418 | the output is the whole bytes of what the symbols of the upper-cased input spell |
| `Base32.AlphabetIs` | backend/src/admin/admin.service.ts:388-388 | the symbols are those of the RFC's alphabet, in its order, and no other character is one |
| `Base32.EncodesBitByBit` | backend/src/admin/admin.service.ts:387-404 | a text encodes a buffer exactly if it has the least length that holds it and each of its bits is the buffer's, the last ones zero |
| `Base32.DecodesBitByBit` | backend/src/admin/admin.service.ts:406-418 | a buffer decodes a text exactly if it has the whole bytes of its bits and each bit is the text's |
| `Base32.ReadsCharacterwise` | backend/src/admin/admin.service.ts:409-412 | decoding reads letters of either case and the digits 2 to 7, and passes over everything else, padding included |
| `Base32.CodecIsFunctional` | backend/src/admin/admin.service.ts:387-418 | every buffer has one encoding, the one built by padding and spelling its bits, and every symbol string one decoding |
| `Base32.RoundTrip` | backend/src/admin/admin.service.ts:387-418 | whatever decodes an encoding is the encoded buffer, of any length |
| `Base32.EncodeThenDecode` | backend/src/admin/admin.service.ts:387-418 | decoding an encoded buffer returns it, although the accumulator wraps |
| `Base32.DecodeTyped` | backend/src/admin/admin.service.ts:406-412 | a secret typed in lower case, with separators or padding decodes to the same bytes |
| `Decimal.IdempotentExactlyWhen` | backend/src/analytics/analytics.service.ts:677-682 | normalizing twice equals normalizing once exactly when, after trimming and one sign, the whole part begins with neither white space nor a plus and is no lone dash (or a dash was taken off), and a sixth fraction character is no white space |
| `Decimal.DecimalsNormalizeOnce` | backend/src/analytics/analytics.service.ts:677-682 | on decimals normalization is idempotent |
| `Decimal.DoublePlusNotIdempotent` | backend/src/analytics/analytics.service.ts:677-682 | of two plus signs each of two passes removes one |
| `Decimal.NumberKeepsSignExactlyWhen` | backend/src/analytics/analytics.service.ts:677-682 | a number normalizes like its string form exactly if that does not begin with a dash |
| `Decimal.NormalForm` | backend/src/analytics/analytics.service.ts:677-682 | what trims to a sign or none, a whole part, a point and a fraction is written with the dash only, zero for an empty whole part, and the fraction cut or filled to six characters |
| `Decimal.NormalFormOfWhole` | backend/src/analytics/analytics.service.ts:677-682 | the same without a point, with six zeros |
| `Decimal.TrimIs` | backend/src/analytics/analytics.service.ts:678-679 | trimming takes off the white space around a text that neither begins nor ends with any |
| `Decimal.MissingIsZero` | backend/src/analytics/analytics.service.ts:679-681 | a missing value becomes 0.000000 |
| `Decimal.SixTruncates` | backend/src/analytics/analytics.service.ts:681 | the first six fraction digits are the fraction in millionths, rounded down |
| `Decimal.UnitsAreTruncated` | backend/src/analytics/analytics.service.ts:690-695 | the units of a decimal are its value in millionths, truncated toward zero |
| `Decimal.UnitsToDecimalIsNormal` | backend/src/analytics/analytics.service.ts:697-703 | formatted units are already normalized |
| `Decimal.UnitsAreWritten` | backend/src/analytics/analytics.service.ts:697-703 | units are written as a dash below zero, a whole part without needless zeros, a point and six digits, of that value |
| `Decimal.UnitsRoundTrip` | backend/src/analytics/analytics.service.ts:690-703 | formatting and reading back returns every integer, also negative ones with whole part zero |
| `Decimal.SubtractionIsExact` | backend/src/analytics/analytics.service.ts:684-688 | subtraction is exact on the operands truncated toward zero at six places |
| `RevenueRanges.MonthOf` | backend/src/analytics/analytics.service.ts:718-746 | the month found is the one the day lies in |
| `RevenueRanges.CalendarIsGregorian` | backend/src/analytics/analytics.service.ts:718-746 | the calendar behind the dates is the Gregorian one: where each year starts, and how long each month is |
| `RevenueRanges.RefusedExactlyWhen` | backend/src/analytics/analytics.service.ts:540-588 | a request is refused exactly when its first day, or month as moved, is after its last, or when a daily one without a first day ends before the year 100 |
| `RevenueRanges.CurrentRangeIsAsked` | backend/src/analytics/analytics.service.ts:540-600 | the current range is the one asked for, by default the last 30 days or 12 months |
| `RevenueRanges.LabelsFitExactlyWhen` | backend/src/analytics/analytics.service.ts:559-608 | labels name the first and the last day or month of their range, except those of a previous range that ends with the year 99 |
| `RevenueRanges.DailyRangesAdjoin` | backend/src/analytics/analytics.service.ts:540-580 | the previous range ends the day before the current one and is as many days long exactly when `from`, or else the day 29 days before `to` or today, is in the year 100 or later |
| `RevenueRanges.DailyRangesMayFail` | backend/src/analytics/analytics.service.ts:726-730 | an earlier start does fail |
| `RevenueRanges.MonthlyRangesAdjoin` | backend/src/analytics/analytics.service.ts:582-610 | the same in whole months, exactly when `from` is given or `to`, or else today, is not in January to November of the year 100 |
| `RevenueRanges.MonthlyRangesMayFail` | backend/src/analytics/analytics.service.ts:582-588 | the default range of twelve months before January of the year 100 fails |
| `RevenueRanges.BuildRevenueSeries` | backend/src/analytics/analytics.service.ts:612-664 | the loop computes the series specification, the last row of a bucket winning |
| `RevenueRanges.SeriesHasEveryBucket` | backend/src/analytics/analytics.service.ts:612-664 | the series has one point for each bucket of the range, in order, exactly under the same conditions or when one single early day is asked for |
| `RevenueRanges.PointsInOrder` | backend/src/analytics/analytics.service.ts:612-664 | its dates are consecutive, so strictly increasing, and each point is its bucket's |
| `RevenueRanges.PointIsRow` | backend/src/analytics/analytics.service.ts:617-664 | a point has the total and the count of its bucket's last row, and zeros if there is none |
| `RevenueRanges.SeriesAddsUp` | backend/src/analytics/analytics.service.ts:612-664 | then the fees of the range's series add up to the totals of the rows in the range |
| `FeeCalculator.ValidateTiers` | dabdub_contracts/contracts/fee_calculator/src/lib.rs:124-149 | the first broken rule in scan order, or acceptance |
| `FeeCalculator.CheckAcceptsExactly` | dabdub_contracts/contracts/fee_calculator/src/lib.rs:124-149 | accepts exactly the non-empty lists within bounds with strictly rising thresholds and non-rising bps |
| `FeeCalculator.CheckReportsFirst` | dabdub_contracts/contracts/fee_calculator/src/lib.rs:124-149 | a refused list is refused with the first rule that its first unfitting tier breaks, an empty one as empty |
| `FeeCalculator.SelectFeeBps` | dabdub_contracts/contracts/fee_calculator/src/lib.rs:173-187 | the early-exit loop computes the selection specification |
| `FeeCalculator.SelectIsCheapestReached` | dabdub_contracts/contracts/fee_calculator/src/lib.rs:173-187 | on accepted tiers it is the minimum bps among tiers reached, the first tier's if there is none |
| `FeeCalculator.CheapestUnique` | dabdub_contracts/contracts/fee_calculator/src/lib.rs:173-187 | there is only one such price |
| `FeeCalculator.SelectAntitone` | dabdub_contracts/contracts/fee_calculator/src/lib.rs:173-187 | more volume never costs more basis points |
| `FeeCalculator.Contract.SetFeeTiers` | dabdub_contracts/contracts/fee_calculator/src/lib.rs:53-58 | only the admin replaces the tiers, and only by accepted ones |
| `FeeCalculator.TiersChangeExactlyWhen` | dabdub_contracts/contracts/fee_calculator/src/lib.rs:53-58 | the tiers change exactly when the admin sets accepted ones, to those, and nothing else changes then |
| `FeeCalculator.Contract.UpdateAndGetVolume` | dabdub_contracts/contracts/fee_calculator/src/lib.rs:151-171 | restarts a lapsed window and adds the amount, or overflows and stores nothing |
| `FeeCalculator.Contract.CalculateFee` | dabdub_contracts/contracts/fee_calculator/src/lib.rs:67-94 | new state and result are those of the charge step; a panic rolls the volume back |
| `FeeCalculator.Contract.GetMerchantVolume` | dabdub_contracts/contracts/fee_calculator/src/lib.rs:96-115 | returns the current window's volume and restarts a lapsed window |
| `FeeCalculator.ReadingShowsWindow` | dabdub_contracts/contracts/fee_calculator/src/lib.rs:96-115 | over every run a reading shows the amounts charged since the window began, and stores a restart exactly from 172,800 ledgers on |
| `FeeCalculator.VolumeIsWindowSum` | dabdub_contracts/contracts/fee_calculator/src/lib.rs:96-115 | over every run the stored volume is the sum charged since its window began, all within 172,800 ledgers of its start |
| `FeeCalculator.FeeWithinAmount` | dabdub_contracts/contracts/fee_calculator/src/lib.rs:67-94 | the fee is the floor of amount times bps over 10,000 and between 0 and the amount |
| `FeeCalculator.FeeByWindowVolume` | dabdub_contracts/contracts/fee_calculator/src/lib.rs:67-187 | over every run a charge costs the cheapest tier that the amounts of its window, its own included, have reached, rounded down, and adds itself to that window and to nothing else |
| `FeeCalculator.ChargeExactlyWhen` | dabdub_contracts/contracts/fee_calculator/src/lib.rs:67-187 | over every run a charge is accepted exactly for a positive amount with which neither the window's volume nor the product with its price leaves an i128, and otherwise refused with the first of the three |
| `FeeCalculator.FeesOverWindow` | dabdub_contracts/contracts/fee_calculator/src/lib.rs:67-94 | after any run, as long as the tiers then stay fixed, the bps charged within a window never rise and the fees F of a window satisfy 10000 F <= first-tier bps times its amounts, which over the whole current window are the stored volume |
| `SettlementLedger.Contract.RecordSettlement` | dabdub_contracts/contracts/settlement_ledger/src/lib.rs:58-113 | record, index and log are those of the append step, or a panic leaves them |
| `SettlementLedger.Contract.ListSettlements` | dabdub_contracts/contracts/settlement_ledger/src/lib.rs:125-151 | the pushing loop computes the page specification |
| `SettlementLedger.Contract.SettlementCount` | dabdub_contracts/contracts/settlement_ledger/src/lib.rs:154-161 | the length of the merchant's index |
| `SettlementLedger.AppendExactlyWhen` | dabdub_contracts/contracts/settlement_ledger/src/lib.rs:58-79 | a record is accepted exactly from the admin, with a positive amount that splits into fee and net, under an id not recorded before, while the merchant's index has room |
| `SettlementLedger.LogIsAccepted` | dabdub_contracts/contracts/settlement_ledger/src/lib.rs:56-113 | over every run the log, and with it the table, holds exactly the arguments of the accepted calls, in order |
| `SettlementLedger.RecordIsArguments` | dabdub_contracts/contracts/settlement_ledger/src/lib.rs:80-90 | after an accepted call, in every continuation, each field of the record under its id is the call's argument |
| `SettlementLedger.AppendRefusals` | dabdub_contracts/contracts/settlement_ledger/src/lib.rs:58-79 | a refused call is refused with the first check that fails |
| `SettlementLedger.CountIsAccepted` | dabdub_contracts/contracts/settlement_ledger/src/lib.rs:154-161 | over every run a merchant's count is the number of its accepted calls |
| `SettlementLedger.IndexesPartitionRecords` | dabdub_contracts/contracts/settlement_ledger/src/lib.rs:58-113 | over every run the indexes are duplicate-free and together partition the record keys by merchant |
| `SettlementLedger.RecordsNeverChange` | dabdub_contracts/contracts/settlement_ledger/src/lib.rs:56-90 | a record once written never changes, and fee and net are non-negative parts of its positive amount |
| `SettlementLedger.PageIsSlice` | dabdub_contracts/contracts/settlement_ledger/src/lib.rs:125-151 | over every run every page is its slice of the arguments of the merchant's accepted calls in order, except the one that overflows |
| `SettlementLedger.OverflowIsReached` | dabdub_contracts/contracts/settlement_ledger/src/lib.rs:134-139 | a run of calls reaches the page that overflows |
| `SettlementLedger.PagesAreHistory` | dabdub_contracts/contracts/settlement_ledger/src/lib.rs:125-151 | pages 0, 1, 2, ... one after the other are exactly the arguments of the merchant's accepted calls in order |
| `SettlementLedger.FullPagesAreFrozen` | dabdub_contracts/contracts/settlement_ledger/src/lib.rs:58-151 | whatever is recorded later, a page only grows at its end and a full page never changes |

## Left out

- Contract authorisation (`require_auth`) and the ledger host: callers, ledger numbers and timestamps are parameters.
- In the escrow, `upgrade`, versioning and `set_registry`: the registry's answer is a boolean of the deposit.
- In the escrow, event publishing; `expire` and `refund` differ only in their topic and so do the same here. The log of token movements stands for the events.
- `expire` omits the asset argument at lib.rs:345, and `token_address` is called but not defined in the source: payouts use the payment's own asset, with one token per asset.
- Depositors and senders of outside transfers differ from the contract's own address, which only the contract's code can spend from.
- Token contracts other than their balances, capped at an i128; a failing transfer rolls the call back.
- The SHA-256 internals: the hash is any function to 32 bytes.
- The RPC transport: a script fixes what each call answers. Tips never decrease, ledgers get no events once closed, every event has a ledger, and tokens are positions in the log.
- `PollEvents`: a script that runs out stands for a process that dies, so a poll that never ends is not modelled; losing the cached cursor, by its TTL or otherwise, is a step of its own.
- Event fields that the indexer copies without reading (`ledgerClosedAt`, `contractId`, raw topics), and conversion of other payload types to strings and numbers.
- `LimitOf`: `RATE_LIMITS[role]` also finds members inherited by every JavaScript object, such as `constructor`, for which it yields no number; roles are taken to be the listed ones or names of no such member.
- `CheckApiKeyRateLimit`: members of the sorted set are distinct, requests of one merchant do not interleave inside the service, and times are whole seconds.
- JavaScript floating point: amounts are whole micro-dollars and fees whole nano-dollars, so a sum is exact and `toFixed(6)` rounds halves up.
- `BatchSmallConfirmedPayments`: the query's answer is a parameter; the database does not change while a run is under way, and saving a row does not fail.
- `InitiateSettlement`: the stored fee is the rounded one, as the six-place column keeps it; webhooks and log lines are left out.
- Transfers to the fiat partner, its callbacks, approval, retries and the settlement queue's lock: dominated by outside failures. `TablesAgree` lets them change anything but links, merchants, amounts and totals.
- `Base32Decode`: upper-casing covers the letters a to z; the few other characters whose upper case is a letter of the alphabet are not modelled.
- `DecimalToUnits`: `BigInt` is modelled on signed decimal literals; hexadecimal, octal and binary literals are not.
- Parsing of ISO dates: the parameters are valid dates of the years 0 to 9999, and today is in the year 100 or later.
- `BuildRevenueSeries`: labels are day and month numbers instead of their strings, and totals are already in millionths.
- The revenue queries, the percentage change and the cache around them.
- Controllers, guards, DTO validation, migrations, the frontend and monitoring: they carry requests or draw pages and keep no state of their own.
- The contracts for payment requests, admin timelock, merchant registry, access roles, liquidity routing, slippage, batch payments, multisig admin, confirmations and fee distribution: small contracts, mostly one check on a stored value each.
