# Payment gateway: a verified model

The gateway takes payments in Toman and pays merchants out in GRAM on the TON chain. This project models its money
protocols in Dafny and proves what holds over every run of them. `dafny verify dfyconfig.toml` checks everything.

How the parts fit together:

- `Pipeline` holds the tables as values (journals, invoices, payments, payouts, reservations, treasury) and says what each
  database transaction does to them, refusals included. `Gateway` is the same use cases in imperative form: a class whose
  fields are the tables and whose methods update them step by step, undoing what an aborted transaction wrote; each method
  is proved equal, in result and state, to its specification.
- `Ledger` is double-entry posting with the balance projection. `PipelineInvariants`, `PaymentSteps` and `PayoutSteps`
  prove that every transaction keeps the pipeline invariant, `PayoutRows` that it keeps the payout table's own constraints;
  `PipelineTheorems` draws the conclusions for all runs, that is, for any interleaving of transactions, whichever succeed.
- `PaymentAnswers`, `PayoutAnswers`, `WorkerAnswers`, `LedgerAnswers`, `SeqnoAnswers`, `SigningAnswers`, `RateAnswers`,
  `LiquidityAnswers`, `TokenAnswers`, `SealAnswers`, `MoneyAnswers` and `MoneyTexts` pin down single operations: when each
  succeeds, what it answers otherwise, which rows it writes and which balances it moves. They say so of the rows and inputs
  themselves, with counts and quantifiers where the operation searches, sorts or folds, and not through its own helpers.
  `AccountCurrencies` shows that no account mixes currencies.
- `Protocol` adds payout workers that may crash between transactions and a chain on which transfers land or are dropped.
  `TonAdapter` shows that the in-memory chain is such a chain, `ChainBooks` ties the treasury to what landed, and
  `TwoWorkers` shows what goes wrong when two workers share a payout. `SamplePayout` is one run that reaches a send.
- `SeqnoTables`/`SeqnoManager` and `SigningRequests`/`KmsSigner` are the sequence-number gate and the signing claims.
- `BlockChain` is what hashing and verifying ledger blocks proves, `BlockOrder` the order in which blocks are read back,
  `LedgerBlocks` posting and sealing over time, and `SealingRuns` the plainest run of both.
- `LiquidityFit`, `RateConsensus`/`RateAggregator`, `TokenBucket`/`RateLimiter`,
  `IdempotencyKeys`/`Idempotency`, `MoneyMath` and `Fees` are the algorithms with a specification of their own.
- `Basics`, `Sums`, `Sequences` and `Decimal` are shared vocabulary.

Conventions. A table is a sequence and a row's id is its position; in `LedgerBlocks` the numbers that the database's sequences
hand out are arbitrary instead, since sequences leave gaps and a transaction may commit after one that drew its number later.
One database transaction is one atomic step. Ids that
the program generates at random (claim tokens, owner tokens) are parameters that are never reused; clocks, wallets, provider
evidence, chain evidence, market readings and the digest, hash and address-parsing functions are parameters too, arbitrary
unless a theorem says otherwise. A payment hold is one boolean. Operation ids are values of a datatype, one constructor for
each textual format, which takes for granted that a provider's name contains no colon.

What the theorems assume, and the code needs:

- `Protocol.EveryRunPaysOnce`: one worker a payout at a time; a REJECTED send and an absence that outlasted the observation
  window mean that no transfer exists or is on its way. Two workers broadcasting one payout break it: one send times out
  unsent and is reconciled to FAILED while the other is still to go out (`TwoWorkers.TwoWorkersPayAFailedPayout`).
- `BlockChain.SameTipSameHistory`: the hash has no collision, and no all-zero digest, on the strings that the two
  verifications actually feed to it. Injectivity on all strings cannot be had with 64 characters.
- `LedgerBlocks.BlocksVerifyExactly`: the same for the headers of the run's blocks.
- `IdempotencyKeys`: rows are not purged.
- `TokenBucket`: a key is always used with one rule and the clock does not go back.

Where the code differs from its comments, the model follows the code:

- UNKNOWN goes back to RESERVED, and RESERVED to RATE_LOCKED, although neither move is in the transition table
  (packages/core/src/use-cases/payout.ts:1442-1448 and 1477-1482). After a crash between that reset and the failing step, the
  payout is RESERVED and is signed and sent again; the theorem covers it.
- Expiry lapses the reservations of signed and broadcast payouts too, so the liquidity bound carries a term for payouts that
  settled without an ACTIVE reservation.
- The in-flight check of the queue step does not look for SIGNED and CONFIRMING payouts; the index of the payout table does,
  so the step fails there instead of skipping the merchant (`QueueingNeverOverdraws`, `OnePayoutAtATime`).
- A payout can be marked UNKNOWN before it is signed; evidence that then matches is refused by the table, which wants a
  signature on a SETTLED row. `SettlesExactlyWhenCovered` carries that condition.
- The idempotency table promises one execution and one result for a key. The error path marks the row FAILED without looking
  at its state, so a lost reply reopens a completed row, and a run may outlive its lease; `FinalExactlyWhenNeverReopened` and
  `SucceedsOnceExactlyWhenLeaseIsLonger` say exactly when the promise holds.
- The signer does not compare a payout's allocation with the wallet of the request. The payout use case never brings that
  about, because its request id is the payout's (`PayoutsNeverShareSeqno`).
- Both block queries select `block_id::text` and sort by `block_id`, which names that text: block 10 is read before block 2. From
  the tenth block on the ledger does not verify, and each seal continues the ninth block and covers the tenth's journals again
  (`BlocksVerifyExactly`, `CountedBlocksVerifyBelowTen`, `SealsAgainAfterNinth`).
- A journal that commits with a number below the end of the last block breaks verification when its number is in a sealed range
  and is never sealed when it is between two (`BlocksVerifyExactly`, `RangesPartitionExactly`).
- In the subset search the first mask in numeric order wins a tie, not the subset that pays more merchants.
- The batch release stops at the first payment whose release throws (packages/core/src/use-cases/release-payment.ts:55-61);
  `ReleasesExactlyWhenEligible` shows that none ever does.
- The sweep of the rate limiter may drop a bucket that is not full again; `BudgetExactly` says for which rules this shows.
- The platform fee already covers the provider fee from 14 Toman on, not only from 22.
- A provider that reports a fee above what its clearing account holds makes crediting fail, although the comment calls the
  fee a matter for finance only; `CreditsExactlyWhenMatched` has the exact condition.

## Model

| member | source | states |
|---|---|---|
| Protocol.EveryRunPaysOnce | packages/core/src/use-cases/payout.ts:751-942 | in every run, with one worker a payout, crashes anywhere and any send outcome: at most one transfer a payout is on or on its way to the chain, a SETTLED payout has exactly one, landed, of its locked amount to its locked address, a FAILED payout has none |
| Protocol.RunWorldSafe | packages/core/src/use-cases/payout.ts:1373-1455 | broadcast, reconcile, settle, fail, expiry and crashes keep: whatever exists on the chain belongs to a payout in or past the broadcast stages and carries its snapshot; what a worker has seen is still so when it acts |
| TwoWorkers.TwoWorkersPayAFailedPayout | packages/core/src/use-cases/payout.ts:864-900 | from every world in which a send could be prepared, two workers of one payout can end with the payout FAILED and its money landed |
| TwoWorkers.SomePayoutIsPaidAndFailed | packages/core/src/use-cases/payout.ts:864-900 | such a world is reachable: a merchant's first payout can end FAILED and paid |
| ChainBooks.WorldDbReachable | packages/core/src/use-cases/payout.ts:1411-1449 | the several transactions of a broadcast or reconcile are each one pipeline transaction, so every theorem about all runs of transactions holds in every world with workers and chain |
| ChainBooks.TreasuryMatchesChain | packages/core/src/use-cases/payout.ts:1159-1193 | in every world, funding less network fees less the confirmed balance is exactly the sum of the transfers that landed for SETTLED payouts |
| WorkerAnswers.PrepareDecides | packages/core/src/use-cases/payout.ts:756-867 | in every world an idle worker starts a send exactly when the payout may go out, and then holds its locked amount and address |
| WorkerAnswers.OutcomeIsRecorded | packages/core/src/use-cases/payout.ts:886-942 | in every world an accepted send is stored under its hash, an indeterminate one as UNKNOWN, and a rejected one fails the payout and gives the money back |
| WorkerAnswers.SettlesOnWhatLanded | packages/core/src/use-cases/payout.ts:1389-1420 | in every world a payout settles only on the transfer its worker saw landed, of the locked amount at the payout's address |
| WorkerAnswers.ClearedFails | packages/core/src/use-cases/payout.ts:1442-1455 | in every world a payout found absent from the chain fails unless it is final, and its money goes back |
| TonAdapter.SendRefines | packages/ton/src/adapter.ts:322-342 | every `send` of the in-memory chain is a send of the protocol with the same answer: an accepted key is not sent twice and answers with its hash, a rejected one has no transfer |
| TonAdapter.StatusRefines | packages/ton/src/adapter.ts:344-356 | NOT_FOUND exactly when the key has no live transfer; CONFIRMED only for a landed one, with its amount and address; the hash is the key's |
| TonAdapter.ConfirmAllRefines | packages/ton/src/adapter.ts:362-364 | `confirmAll` is every transfer in flight landing |
| TonAdapter.HashesMeetExactlyOnSharedPrefix | packages/ton/src/adapter.ts:331-331 | the in-memory chain gives two keys one transaction hash exactly when their first 24 bytes agree |
| InMemoryTon.InMemoryTonAdapter.Send | packages/ton/src/adapter.ts:322-342 | the whole new map, scripted outcome and answer of a send, hash included |
| InMemoryTon.InMemoryTonAdapter.ConfirmAll | packages/ton/src/adapter.ts:362-364 | every record confirmed and nothing else changed |
| TonAdapter.HashSpellsKey | packages/ton/src/adapter.ts:331-331 | the hash is `tx_` and the first 24 bytes of the key in hexadecimal |
| PipelineTheorems.MerchantBucketsMatchRows | packages/core/src/use-cases/finalize-payment.ts:472-531 | after every run: PENDING, SETTLING and AVAILABLE of a merchant are the sums its payment and payout rows call for, and AVAILABLE is never negative |
| PipelineTheorems.InvoicesPaidOnce | packages/core/src/use-cases/finalize-payment.ts:117-151 | after every run: an invoice is PAID exactly when one of its payments is VERIFIED or RELEASED, never two, and a provider payment is recorded once |
| PipelineTheorems.ReleasesExactlyWhenEligible | packages/core/src/use-cases/release-payment.ts:66-160 | after every run: a payment is released if and only if it is VERIFIED, matured, not held and its merchant ACTIVE; it moves exactly its own merchant net; no release fails |
| PipelineTheorems.FailingNeverOverdraws | packages/core/src/use-cases/payout.ts:1250-1330 | after every run: failing a payout succeeds if and only if it is not FAILED, SETTLED or UNKNOWN; the ledger never refuses it |
| PipelineTheorems.SettlesExactlyWhenCovered | packages/core/src/use-cases/payout.ts:1042-1213 | after every run: a payout settles if and only if it is on its way and signed, the evidence is in GRAM on the payout's network, to its destination, of its locked amount, with the required confirmations and a hash no other payout carries, and the treasury holds amount plus fee, the fee not negative; the treasury row's own overdraft check never fires |
| PipelineTheorems.NoTransactionSettlesTwo | db/migrations/002_finance_ledger.sql:263-265 | after every run: no transaction hash is on two payouts, and a SETTLED payout has a hash and a signature, so no chain transaction settles two payouts |
| PipelineTheorems.OnePayoutAtATime | db/migrations/011_confirming_state.sql:30-34 | after every run: a merchant has at most one payout that is neither SETTLED nor FAILED, and the SETTLING bucket is its amount |
| PayoutRows.ApplyConforms | db/migrations/011_confirming_state.sql:23-34 | each transaction keeps the payout table's constraints: hashes on one row, one unfinished payout a merchant, a signature on what was sent |
| PipelineTheorems.RunIsFinal | packages/core/src/use-cases/payout.ts:1069-1072 | however a run goes on, SETTLED and FAILED payouts stay as they are, a payment keeps its invoice, merchant, provider id and release date, and its credit is neither withdrawn nor repeated |
| PipelineTheorems.TreasuryAgrees | packages/core/src/use-cases/payout.ts:1159-1170 | after every run: treasury row, treasury ledger account, and funding minus settled principal minus network fees are one number, never negative |
| PipelineTheorems.PromisesAreCovered | packages/core/src/use-cases/payout.ts:455-547 | after every run: with any ACTIVE reservation, ACTIVE reservations plus safety reserve are covered by confirmed balance plus fees charged plus principal settled without an ACTIVE reservation |
| PipelineTheorems.SendsAreBacked | packages/core/src/use-cases/payout.ts:796-862 | after every run: what is handed to the chain is a SIGNED payout's positive locked amount, held by an unexpired ACTIVE reservation, to the merchant's current wallet |
| SamplePayout.SomeSendIsPrepared | packages/core/src/use-cases/payout.ts:756-862 | a run from empty tables through invoice, payment, release, queue, rate, funding, reservation and signature reaches a send |
| PipelineTheorems.AmountGuardsNeverFire | packages/core/src/use-cases/payout.ts:623-637 | after every run: an ACTIVE reservation is for an in-flight payout and equals its locked GRAM, so neither amount guard nor the duplicate-reservation error ever fires |
| PipelineTheorems.ApplyKeeps | packages/core/src/use-cases/payout.ts:69-1530 | each transaction keeps journal, buckets, invoices, reservations and treasury in step |
| PipelineTheorems.CreditsExactlyWhenMatched | packages/core/src/use-cases/finalize-payment.ts:82-545 | after every run: a payment is credited if and only if it is new, the provider's evidence matches the invoice in order id, status, rial, Toman, state and time, the hold is not negative, the merchant's net is positive and the provider's fee does not exceed what clearing then holds |
| PaymentAnswers.HoldsAreKept | packages/core/src/use-cases/finalize-payment.ts:345-345 | no run that follows a credit releases the payment before paidAt plus the hold time: its release date is that sum for good, and it ends RELEASED only if a transaction of the run at or after the date released it |
| PaymentAnswers.ReleasedInTime | packages/core/src/use-cases/release-payment.ts:66-130 | however a run goes on a payment keeps its release date and is RELEASED only through a release transaction at or after it, for an active merchant |
| PaymentAnswers.CreditStores | packages/core/src/use-cases/finalize-payment.ts:345-531 | a credit adds one payment row (invoice, its merchant, provider, external id, VERIFIED, releaseAt = paidAt + hold, held exactly when risky), marks the invoice PAID, books one journal and moves clearing by what was paid less the provider's cut, PENDING by the net, revenue by the platform fee, expense by the cut, the cut being the reported one or the rate rounded up; nothing else changes |
| PaymentAnswers.FinalizeAnswers | packages/core/src/use-cases/finalize-payment.ts:75-330 | what finalizing answers and stores in every case that credits nothing: missing id, unknown invoice, replay, foreign order id, failed, pending, mismatched, not payable, undated, late |
| PaymentAnswers.ReleaseStores | packages/core/src/use-cases/release-payment.ts:66-160 | a release marks the row RELEASED, books one journal, and moves the payment's own net from PENDING to AVAILABLE of its merchant; otherwise nothing changes |
| PaymentAnswers.InvoiceAnswers | packages/core/src/use-cases/create-invoice.ts:61-150 | the four refusals, else the invoice as stored: merchant, the snapshot with the fee cut to whole Toman and put on customer, merchant or both as the mode says, open until now plus the asked time; refused when the merchant's share exceeds the base |
| PaymentAnswers.OneSnapshot | packages/core/src/fees.ts:64-136 | every base, mode and rate has exactly one snapshot |
| PaymentAnswers.CancelAnswers | packages/core/src/use-cases/create-invoice.ts:281-352 | after every run: an open invoice of the merchant can always be cancelled, no verified payment stands in the way |
| PaymentAnswers.InvoiceExpiryAnswers | packages/core/src/use-cases/create-invoice.ts:267-276 | exactly the open invoices past their expiry become EXPIRED |
| PipelineTheorems.QueueingNeverOverdraws | packages/core/src/use-cases/payout.ts:86-279 | after every run: the ledger never refuses a payout that passed the checks, the table's index does when the merchant has a SIGNED or CONFIRMING payout; a queued one has net plus fee equal to gross, at most the available balance and the request, an instant fee of 2% rounded down and otherwise none |
| PipelineTheorems.QueuesExactlyWhenPayable | packages/core/src/use-cases/payout.ts:86-279 | after every run: a payout is queued if and only if the merchant is active, asks or is set to be paid, has a wallet off hold, no unfinished payout, and a positive amount within balance, minimum and limits; the queued net, gross and fee are given |
| PipelineTheorems.FundsExactlyWhenNew | packages/core/src/use-cases/payout.ts:1489-1531 | after every run: a funding is booked if and only if its amount is positive and representable and its hash is new |
| PayoutAnswers.LockAnswers | packages/core/src/use-cases/payout.ts:327-403 | a rate is locked if and only if the payout is QUEUED or WAITING_LIQUIDITY and the quote is unexpired, parses, and buys a positive, representable amount; then gram * rate <= Toman * unit < (gram + 1) * rate, and the row holds that amount and RATE_LOCKED, whatever it held before |
| PayoutAnswers.ReserveAnswers | packages/core/src/use-cases/payout.ts:429-552 | after every run: liquidity is promised exactly when confirmed less every promise less the safety reserve covers the locked amount; the new reservation ends at now plus its time; otherwise the payout waits |
| PayoutAnswers.SignableAnswers | packages/core/src/use-cases/payout.ts:575-652 | after every run: what is offered for signing is the locked amount of a RESERVED payout with an unexpired promise, and each refusal in its order |
| PayoutAnswers.SignatureAnswers | packages/core/src/use-cases/payout.ts:694-735 | after every run: the first signature is stored with SIGNED, a second one changes nothing and is answered with the first |
| PayoutAnswers.PrepareAnswers | packages/core/src/use-cases/payout.ts:756-867 | after every run: a send takes a SIGNED payout, an open gate, an unexpired promise and an unchanged wallet, counts the attempt and hands over the locked amount; each refusal in its order |
| PayoutAnswers.BroadcastAnswers | packages/core/src/use-cases/payout.ts:902-917 | after every run: an accepted send of a SIGNED payout is stored with its hash, unless another payout carries it |
| PayoutAnswers.ConfirmingAnswers | packages/core/src/use-cases/payout.ts:979-1003 | after every run: a BROADCASTED payout takes the observed hash and CONFIRMING, unless another payout carries it |
| PayoutAnswers.UnknownAnswers | packages/core/src/use-cases/payout.ts:944-968 | after every run: exactly a RESERVED, SIGNED, BROADCASTED or CONFIRMING payout becomes UNKNOWN and keeps the rest of its row |
| PayoutAnswers.SettlementStores | packages/core/src/use-cases/payout.ts:1110-1213 | after every run a settlement leaves: the row SETTLED with the evidence's hash, its ACTIVE reservations CONSUMED, confirmed less amount and fee, the transfers recorded once by hash, one journal, and the merchant's SETTLING, both clearing accounts, fee expense and treasury moved by their amounts |
| PayoutAnswers.SettlementRefuses | packages/core/src/use-cases/payout.ts:1054-1109 | after every run: which refusal each kind of evidence gets, in order; a repeated settlement is told so; a refusal changes nothing |
| PayoutAnswers.FailureStores | packages/core/src/use-cases/payout.ts:1250-1362 | after every run: a failure stores FAILED, releases the ACTIVE reservations, books one journal and gives amount and instant fee back to AVAILABLE; FAILED, SETTLED and UNKNOWN payouts are answered and left alone |
| PayoutAnswers.FundingStores | packages/core/src/use-cases/payout.ts:1489-1531 | after every run: a funding raises treasury row, treasury account and equity by its amount and records its hash; each refusal in its order |
| PayoutAnswers.QueueStores | packages/core/src/use-cases/payout.ts:179-279 | after every run: queueing adds one QUEUED row of net, gross and fee for the wallet's address, one journal, and moves gross out of AVAILABLE, net into SETTLING and the fee into revenue |
| PayoutAnswers.QueueSkips | packages/core/src/use-cases/payout.ts:86-178 | after every run: which reason a merchant is passed over for, the first that applies |
| PayoutAnswers.ExpiryAnswers | packages/core/src/use-cases/payout.ts:1467-1486 | exactly the ACTIVE reservations that ended before now lapse, and exactly their RESERVED payouts go back to RATE_LOCKED |
| AccountCurrencies.AccountsKeepTheirCurrency | packages/ledger/src/accounts.ts:18-45 | after every run: each entry is in its account's currency, so no account mixes Toman and GRAM |
| PaymentSteps.FinalizePaymentKeeps | packages/core/src/use-cases/finalize-payment.ts:75-560 | finalizing keeps the pipeline invariant in every branch |
| PaymentSteps.ReleasePaymentKeeps | packages/core/src/use-cases/release-payment.ts:66-160 | releasing keeps the pipeline invariant |
| PaymentSteps.CreateInvoiceKeeps | packages/core/src/use-cases/create-invoice.ts:61-150 | creating an invoice keeps the pipeline invariant |
| PaymentSteps.CancelInvoiceKeeps | packages/core/src/use-cases/create-invoice.ts:281-352 | cancelling an invoice keeps the pipeline invariant |
| PaymentSteps.ExpireInvoicesKeeps | packages/core/src/use-cases/create-invoice.ts:267-276 | expiring invoices keeps the pipeline invariant |
| PayoutSteps.QueuePayoutKeeps | packages/core/src/use-cases/payout.ts:69-305 | queueing keeps the pipeline invariant, instant fee included |
| PayoutSteps.LockRateKeeps | packages/core/src/use-cases/payout.ts:327-403 | locking a rate keeps the pipeline invariant, also when a waiting payout is locked again |
| PayoutSteps.ReserveLiquidityKeeps | packages/core/src/use-cases/payout.ts:429-552 | reserving or waiting keeps the pipeline invariant |
| PayoutSteps.SettlePayoutKeeps | packages/core/src/use-cases/payout.ts:1042-1240 | settling keeps the pipeline invariant, also when the reservation has lapsed |
| PayoutSteps.FailPayoutKeeps | packages/core/src/use-cases/payout.ts:1250-1362 | failing keeps the pipeline invariant, instant fee given back |
| PayoutSteps.ExpireReservationsKeeps | packages/core/src/use-cases/payout.ts:1467-1486 | expiry keeps the pipeline invariant, although it also lapses reservations of signed and broadcast payouts |
| PayoutSteps.FundTreasuryKeeps | packages/core/src/use-cases/payout.ts:1489-1531 | funding keeps the pipeline invariant, and a known transaction hash is not booked again |
| Gateway.Gateway.CreateInvoice | packages/core/src/use-cases/create-invoice.ts:61-150 | the step-by-step use case has the result and new state of its specification |
| Gateway.Gateway.CancelInvoice | packages/core/src/use-cases/create-invoice.ts:281-352 | same, for cancelling |
| Gateway.Gateway.ExpireInvoices | packages/core/src/use-cases/create-invoice.ts:267-276 | same, for expiry of invoices |
| Gateway.Gateway.FinalizePayment | packages/core/src/use-cases/finalize-payment.ts:75-330 | same, for finalizing: replay, order binding, status, rial and Toman match, invoice state, expiry |
| Gateway.Gateway.CreditVerified | packages/core/src/use-cases/finalize-payment.ts:472-545 | insert, post and mark PAID; a refused posting leaves every table as before |
| Gateway.Gateway.ReleasePayment | packages/core/src/use-cases/release-payment.ts:66-160 | same, for releasing one payment |
| Gateway.Gateway.QueuePayout | packages/core/src/use-cases/payout.ts:69-305 | same, for queueing, with the balance read from the projection |
| Gateway.Gateway.AddPayout | packages/core/src/use-cases/payout.ts:179-279 | refused when the merchant has an unfinished payout; else insert CREATED, post, mark QUEUED, and a refused posting removes the row |
| Gateway.Gateway.LockRate | packages/core/src/use-cases/payout.ts:327-403 | same, for locking a rate |
| Gateway.Gateway.ReserveLiquidity | packages/core/src/use-cases/payout.ts:429-552 | same, for reserving |
| Gateway.Gateway.TransitionState | packages/core/src/transitions.ts:63-132 | the guarded update happens exactly when the row is in an expected state and the table accepts the new one, and otherwise changes nothing |
| Gateway.Gateway.CheckSignable | packages/core/src/use-cases/payout.ts:575-652 | same, for the validation phase of signing |
| Gateway.Gateway.RecordSignature | packages/core/src/use-cases/payout.ts:694-735 | same, for recording a signature |
| Gateway.Gateway.PrepareBroadcast | packages/core/src/use-cases/payout.ts:756-867 | same, for the checks before a send |
| Gateway.Gateway.RecordBroadcast | packages/core/src/use-cases/payout.ts:902-917 | same, for an accepted send and the hash it reported, refused when another payout carries it |
| Gateway.Gateway.MarkUnknown | packages/core/src/use-cases/payout.ts:944-968 | same, for an indeterminate send |
| Gateway.Gateway.MarkConfirming | packages/core/src/use-cases/payout.ts:979-1003 | same, for a transfer seen but not final, with the observed hash |
| Gateway.Gateway.SettlePayout | packages/core/src/use-cases/payout.ts:1042-1115 | same, for settling |
| Gateway.Gateway.CloseLiability | packages/core/src/use-cases/payout.ts:1116-1213 | post, debit treasury, consume reservation, mark SETTLED with the hash; an overdrawn treasury row or a taken hash undoes everything |
| Gateway.Gateway.FailPayout | packages/core/src/use-cases/payout.ts:1250-1335 | same, for failing |
| Gateway.Gateway.ResetNotFound | packages/core/src/use-cases/payout.ts:1442-1448 | same, for taking an UNKNOWN payout back to RESERVED |
| Gateway.Gateway.ExpireReservations | packages/core/src/use-cases/payout.ts:1467-1486 | same, for the expiry loop over the owners of lapsed reservations |
| Gateway.Gateway.FundTreasury | packages/core/src/use-cases/payout.ts:1489-1531 | same, for manual funding |
| Ledger.EveryRunIsSound | packages/ledger/src/ledger-service.ts:65-155 | after any sequence of drafts, refused, replayed or new: the two sides of each currency are equal over the whole ledger, no ASSET or LIABILITY bucket is negative, one journal an operation id |
| Ledger.PostKeepsSound | packages/ledger/src/ledger-service.ts:65-219 | one posting keeps this, whatever the order of its lines |
| Ledger.OperationPostsOnce | packages/ledger/src/ledger-service.ts:111-135 | once an operation id has a journal no later draft under it changes anything, whatever its lines, and a replay finds the first journal |
| LedgerAnswers.PostAnswers | packages/ledger/src/ledger-service.ts:65-219 | what posting answers to every draft: the first malformed line, imbalance, replay, the first line whose account is unknown or whose bucket would be overdrawn, or a journal of exactly its lines in order |
| Ledger.LedgerService.Post | packages/ledger/src/ledger-service.ts:65-155 | journals and result are those of the specification; the bucket projection equals the signed sums of the entries before and after, also when the posting is refused half way |
| Ledger.LedgerService.CheckLines | packages/ledger/src/ledger-service.ts:78-109 | the first shape error in line order, then balance in every currency |
| Ledger.LedgerService.ApplyToProjection | packages/ledger/src/ledger-service.ts:165-219 | line by line, stops at the first unknown account or overdrawn bucket; otherwise the projection has moved by the entries |
| Ledger.LedgerService.VerifyProjection | packages/ledger/src/ledger-service.ts:273-313 | true exactly when the account's row equals its sums recomputed from the journals |
| Ledger.LedgerService.VerifyGlobalBalance | packages/ledger/src/ledger-service.ts:321-333 | true exactly when debits equal credits in every currency over all journals |
| MoneyMath.RoundedIsRounding | packages/money/src/index.ts:41-76 | each of the four modes rounds as its name says, for negative numerators and denominators too |
| MoneyMath.RoundingIsUnique | packages/money/src/index.ts:41-76 | no other integer is the rounding |
| MoneyMath.RoundTripNeverGains | packages/money/src/index.ts:332-352 | Toman to GRAM and back under FLOOR never gains and loses at most ceil((R-1)/U) for scaled rate R and U = 10^9 times its scale: at most 1 Toman when a GRAM costs at most 10^9 |
| MoneyMath.SplittingNeverGains | packages/money/src/index.ts:332-341 | a payout split in parts never yields more GRAM and loses under one nanoGRAM a part |
| MoneyMath.ParseUndoesFormat | packages/money/src/index.ts:135-153 | `parse` inverts `format` for every amount of both currencies, negatives included |
| MoneyMath.ParseIsExact | packages/money/src/index.ts:135-153 | an accepted text is read without cutting any digit |
| MoneyAnswers.AmountAnswers | packages/money/src/index.ts:135-153 | every text of digits, or digits, a point and digits, is read as its value, refused when it has no digit or too many places |
| MoneyAnswers.NegativeAmountAnswers | packages/money/src/index.ts:135-153 | the same after a minus sign, negated |
| MoneyAnswers.UnshapedIsNoAmount | packages/money/src/index.ts:135-153 | any other text is no amount |
| MoneyAnswers.SeparatorsDoNotMatter | packages/money/src/index.ts:135-140 | a comma, an underscore or a blank anywhere changes nothing |
| MoneyTexts.FormatAnswers | packages/money/src/index.ts:236-247 | an amount is written with a minus sign when negative, no superfluous leading zero and all the places of its currency, and means itself |
| MoneyMath.RateSurvivesDatabase | packages/money/src/index.ts:355-365 | `fromDbString` inverts `toDbString` |
| MoneyAnswers.RateAnswers | packages/money/src/index.ts:313-321 | a quote is a trimmed decimal, cut to the scale, positive, with a named source; each refusal in its order |
| MoneyMath.ScaledRoundTrip | packages/core/src/adapters/rate-aggregator.ts:28-45 | `toScaled` inverts `fromScaled` for every positive value |
| MoneyMath.SmallValuesScaleToZero | packages/core/src/adapters/rate-aggregator.ts:35-37 | an accepted text scales to zero exactly when its whole part and its first `places` decimals hold only zeros |
| MoneyAnswers.ReadingAnswers | packages/core/src/adapters/rate-aggregator.ts:28-37 | which texts are market readings, and their value cut to the places |
| MoneyTexts.RenderAnswers | packages/core/src/adapters/rate-aggregator.ts:41-45 | a scaled value is written without superfluous zeros at either end, without a point when whole, and means itself |
| Fees.FeesConserveValue | packages/core/src/fees.ts:64-136 | in every fee mode, rate and rounding: what the customer pays less the platform fee is the merchant's net, the shares add up, and only a fee above the base is refused |
| Fees.ProviderCostRoundsUp | packages/core/src/fees.ts:188-216 | the provider's cost is the rate on what was collected, rounded up, refused when it exceeds that |
| Fees.PlatformFeeCoversProviderFee | packages/core/src/fees.ts:188-216 | at 15% and 9% the floored platform fee covers the rounded-up provider fee exactly for bases of at least 14 Toman and 7 to 10 (11 unless the customer pays the fee) |
| SeqnoTables.SeqnosAreDistinct | packages/ton/src/seqno-manager.ts:68-146 | over any run of the seven operations a wallet's allocations carry distinct seqnos and a payout has one |
| SeqnoTables.OpeningsAreInOrder | packages/ton/src/seqno-manager.ts:157-290 | when the gate opens for a payout on its own wallet every smaller allocation is CONFIRMED, no other is in flight, and none smaller is ever allocated later |
| SeqnoTables.OpeningsNeverGoBack | packages/ton/src/seqno-manager.ts:199-208 | opened seqnos of a wallet never go down, each is opened for one payout only, and the gate passes a payout only once it is CONFIRMED |
| SeqnoTables.OneOwnerOnlyOnItsOwnWallet | packages/ton/src/seqno-manager.ts:162-200 | asked about another wallet's payout the gate opens exactly when that payout is unconfirmed and holds the seqno being opened |
| SeqnoManager.TonSeqnoManager.Allocate | packages/ton/src/seqno-manager.ts:68-146 | the two tables and the seqno after an allocation |
| SeqnoManager.TonSeqnoManager.CanBroadcast | packages/ton/src/seqno-manager.ts:157-290 | the answer of the gate, first blocking predecessor included |
| SeqnoManager.TonSeqnoManager.Confirm | packages/ton/src/seqno-manager.ts:312-378 | three refusals, else CONFIRMED and the counters raised |
| SeqnoManager.TonSeqnoManager.SyncOnChain | packages/ton/src/seqno-manager.ts:401-416 | row created with confirmed -1, or counters raised |
| SeqnoManager.TonSeqnoManager.ReconcileSequenceGap | packages/ton/src/seqno-manager.ts:427-559 | stuck rows judged on evidence, the chain's seqno adopted as it is, reserved rows at or above it expired |
| SeqnoAnswers.OpensExactlyInTurn | packages/ton/src/seqno-manager.ts:157-290 | over every run of calls: the gate opens for a payout with seqno s if and only if the payout holds s unconfirmed, the wallet's row has current s and confirmed s - 1, every smaller allocation of the wallet is CONFIRMED with s - 1 among them if there are any, and no other allocation of the wallet is BROADCASTED |
| SeqnoAnswers.GateAnswers | packages/ton/src/seqno-manager.ts:157-290 | over every run of calls: a closed gate names the first reason that applies, and of several unconfirmed predecessors the smallest |
| SeqnoAnswers.AllocateAnswers | packages/ton/src/seqno-manager.ts:68-146 | a payout keeps its seqno; a new one gets the wallet's next number, a new wallet starts at the given one |
| SeqnoAnswers.ConfirmAnswers | packages/ton/src/seqno-manager.ts:312-378 | only the payout's own wallet and seqno confirm it; its row becomes CONFIRMED, `confirmed` covers the seqno, `current` is past it, nothing falls |
| SeqnoAnswers.ReconcileAnswers | packages/ton/src/seqno-manager.ts:427-559 | row by row what reconciliation makes of the wallet: open rows below the chain's seqno are CONFIRMED on proof, FAILED on other evidence, left alone without, reserved ones above lapse; `confirmed` becomes the largest confirmed before or now |
| SigningRequests.OneDigestPerRequest | packages/ton/src/aws-kms-signer.ts:125-203 | over any interleaving, lease expiry, failure and altered retry, all KMS calls for one request carry one digest, destination, amount and seqno, which is the seqno allocated to the record's payout |
| SigningAnswers.ClaimAnswers | packages/ton/src/aws-kms-signer.ts:95-203 | over every run: a claim on a registered request is refused for another request, answered with the result when completed, and otherwise granted if and only if the record is not CLAIMED or its lease has ended; the record is then held under the new token for one lease |
| SigningAnswers.OneHolderPerLease | packages/ton/src/aws-kms-signer.ts:183-203 | over every run: no two claims of one id are granted within one lease unless the first holder gave up in between |
| SigningAnswers.RegistrationAnswers | packages/ton/src/aws-kms-signer.ts:205-273 | a new request is registered with the allocated seqno, its digest and intent hash, held for one lease, or leaves no trace |
| SigningRequests.PayoutsNeverShareSeqno | packages/core/src/use-cases/payout.ts:661-669 | when every request's id is derived from its payout, as the caller does, then over any run and whatever wallets are named or configured: every record names the wallet of its payout's allocation, and KMS calls from one wallet carry one seqno exactly when they are for one payout |
| SigningRequests.ConfiguredWalletIsOwn | packages/ton/src/signer.ts:33-38 | with the payout wallet configured every record names the wallet of its allocation |
| SigningRequests.SeqnosAreSafeExactlyWhenOneWallet | packages/ton/src/aws-kms-signer.ts:205-211 | with arbitrary request ids, that holds on every run if and only if a payout wallet is configured or no two distinct wallets parse together with a non-blank destination |
| SigningRequests.SharingRunShares | packages/ton/src/seqno-manager.ts:76-85 | the run behind it, for any two such wallets and any initial seqno: a payout requested again from another wallet under another id keeps its seqno, which that wallet signs for a second payout |
| SigningRequests.CompletedIsFrozen | packages/ton/src/aws-kms-signer.ts:324-364 | a COMPLETED record is never written again and its result signs its own digest |
| KmsSigner.AwsKmsEd25519Signer.Claim | packages/ton/src/aws-kms-signer.ts:95-279 | the claim transaction: mismatch, completed, leased, taken over or fresh |
| KmsSigner.AwsKmsEd25519Signer.Register | packages/ton/src/aws-kms-signer.ts:205-273 | allocation and intent are stored together or not at all |
| KmsSigner.AwsKmsEd25519Signer.Complete | packages/ton/src/aws-kms-signer.ts:325-345 | fenced by the claim token |
| KmsSigner.AwsKmsEd25519Signer.Fail | packages/ton/src/aws-kms-signer.ts:354-365 | fenced by the claim token |
| KmsSigner.AwsKmsEd25519Signer.Sign | packages/ton/src/aws-kms-signer.ts:86-375 | one undisturbed attempt end to end |
| LiquidityFit.SelectByLiquidityFit | packages/core/src/use-cases/payout.ts:1603-1681 | starved candidates in turn, then the first mask in numeric order with the largest total that fits |
| LiquidityFit.SelectionIsAffordable | packages/core/src/use-cases/payout.ts:1611-1633 | distinct candidates give distinct, affordable payouts, at most maxSelected, at most spendable |
| LiquidityFit.OldestStarvedIsTaken | packages/core/src/use-cases/payout.ts:1617-1633 | the longest starved affordable payout is always selected |
| LiquidityFit.SelectionIsOptimal | packages/core/src/use-cases/payout.ts:1651-1678 | no choice among the searched leftovers that fits GRAM and slots uses more GRAM |
| LiquidityFit.SearchTakesOldest | packages/core/src/use-cases/payout.ts:1641-1646 | the search is over the 18 oldest leftovers |
| LiquidityAnswers.SelectionAnswers | packages/core/src/use-cases/payout.ts:1603-1681 | of distinct candidates a selection is: the starved payable ones oldest first, each unless the slots were gone or it no longer fitted at its turn, then a choice among the oldest 18 other payable ones that fits and uses as much GRAM as any that fits |
| LiquidityFit.BestSubset | packages/core/src/use-cases/payout.ts:1649-1673 | the mask enumeration with its early exits finds the first best subset |
| LiquidityFit.Weigh | packages/core/src/use-cases/payout.ts:1656-1665 | breaking off early never misjudges a subset |
| RateConsensus.MajorityDecides | packages/core/src/adapters/rate-aggregator.ts:195-286 | quorum met, readings positive and more than half of at least two in a band no wider than the threshold: the leg settles inside the band whatever the others say |
| RateAnswers.LegAnswers | packages/core/src/adapters/rate-aggregator.ts:162-286 | what a leg answers in every case, said by counts over the fetched readings: too few fresh ones (parsed, at most the age limit old, at most a minute ahead), the only one, a zero, the upper median of all when no two differ by more than the threshold, else of those near the median, else discrepancy; with the sources credited |
| RateAnswers.QuoteAnswers | packages/core/src/adapters/rate-aggregator.ts:117-157 | a quote is the product of the legs cut to 18 places, or the first error: a leg's, not positive, out of bounds, too far from the last |
| RateConsensus.BreaksExactlyOnZero | packages/core/src/adapters/rate-aggregator.ts:224-233 | past the quorum a leg of two or more readings breaks down exactly when one scales to zero |
| RateAnswers.QuoteFollowsMajorities | packages/core/src/adapters/rate-aggregator.ts:117-157 | with a majority of the fresh readings of each leg in a narrow band any quote lies in the product of the bands, within the bounds and the allowed jump |
| RateAggregator.RateAggregator.ResolveLegConsensus | packages/core/src/adapters/rate-aggregator.ts:162-286 | collect, check quorum, sort, cross-validate |
| RateAggregator.RateAggregator.CrossValidate | packages/core/src/adapters/rate-aggregator.ts:231-285 | divergence, outlier removal around the median, median of the rest |
| RateAggregator.RateAggregator.GetQuote | packages/core/src/adapters/rate-aggregator.ts:117-157 | only a sane quote replaces the remembered rate |
| RateAggregator.RateAggregator.EnsureBaseline | packages/core/src/adapters/rate-aggregator.ts:106-115 | a saved baseline is read once and ignored when it does not parse |
| BlockChain.MerkleInjective | packages/ledger/src/ledger-blocks.ts:48-66 | equal-length leaf lists with equal roots are equal, when the hash does not collide on what is hashed |
| BlockChain.OddLeafMayRepeat | packages/ledger/src/ledger-blocks.ts:57-61 | without the length they need not be: an odd last leaf may be repeated |
| BlockChain.CanonicalInjective | packages/ledger/src/ledger-blocks.ts:22-43 | the joined text of an entry determines every field |
| BlockChain.HeaderInjective | packages/ledger/src/ledger-blocks.ts:71-86 | the joined text of a header determines every field |
| SealAnswers.HashedTexts | packages/ledger/src/ledger-blocks.ts:22-86 | entry and header texts are their fields in this order between bars |
| SealAnswers.RootOfLevels | packages/ledger/src/ledger-blocks.ts:48-66 | one leaf is its own root; more are hashed in pairs, an odd last one with itself, level by level |
| BlockChain.SameTipSameHistory | packages/ledger/src/ledger-blocks.ts:160-251 | two ledgers that verify and end in the same block hash have the same blocks and the same entries in each |
| LedgerBlocks.BlocksVerifyExactly | packages/ledger/src/ledger-blocks.ts:160-251 | after any run of posts and seals, with any numbers from the sequences and a hash that has no collision on the headers, the blocks verify if and only if they were sealed in the order in which their ids are read, as texts, and no journal arrived with a number in a sealed range |
| LedgerBlocks.CountedBlocksVerifyBelowTen | packages/ledger/src/ledger-blocks.ts:173-177 | with ids 1, 2, 3, ... that is: fewer than ten blocks and no such journal |
| LedgerBlocks.SealsAgainAfterNinth | packages/ledger/src/ledger-blocks.ts:262-293 | with ten to eighty-nine such blocks every further seal continues the ninth block, forks from the tenth and covers the tenth's range again, with new journals or without |
| LedgerBlocks.RangesPartitionExactly | packages/ledger/src/ledger-blocks.ts:270-293 | while blocks are sealed in text order no two ranges share a journal, and every journal up to the last end is in one block if and only if none arrived with a number between two ranges |
| LedgerBlocks.RowsAreEntries | packages/ledger/src/ledger-service.ts:133-150 | after any run the entry rows are the journals' entries: journal number, account, sides, currency and bucket |
| SealAnswers.SealingAnswers | packages/ledger/src/ledger-blocks.ts:256-339 | a seal takes every number above the last end read: from the least to the greatest, on the last block's hash, with the count, the root and the hash of exactly the rows in that range; none when there is no such number |
| BlockOrder.CountedIdsAreInOrderBelowTen | db/migrations/018_v3_3_institutional_baseline.sql:188-189 | ids counted from 1 are in text order if and only if there are fewer than ten |
| SealingRuns.RoundsVerifyBelowTen | packages/ledger/src/ledger-blocks.ts:160-251 | the plainest use, one journal and one seal at a time: the blocks verify for nine rounds and never after |
| SealingRuns.EleventhOverlapsTenth | packages/ledger/src/ledger-blocks.ts:256-293 | there the eleventh seal covers journals 10 and 11, so journal 10 is in two blocks |
| LedgerBlocks.ComputeMerkleRoot | packages/ledger/src/ledger-blocks.ts:48-66 | the level-by-level loop computes the root |
| LedgerBlocks.BlockLedger.VerifyLedgerBlocks | packages/ledger/src/ledger-blocks.ts:160-251 | valid exactly when, read in the text order of their ids, every block checks out against the one read before it and against its entries |
| LedgerBlocks.BlockLedger.SealLedgerBlock | packages/ledger/src/ledger-blocks.ts:256-339 | one block from the least to the greatest number above the end of the last block read, or none |
| LedgerBlocks.BlockLedger.Post | packages/ledger/src/ledger-service.ts:111-154 | a created journal takes the number it drew and adds its entry rows with theirs; a refused or replayed one adds nothing |
| TokenBucket.BudgetExactly | packages/core/src/rate-limit.ts:70-114 | for a rule of whole capacity: in any stretch of T seconds at most capacity plus limit*T/window calls pass, on every run if and only if a bucket refills in 600.001 seconds |
| TokenBucket.SweepIsInvisible | packages/core/src/rate-limit.ts:107-114 | for such rules the sweep never changes a decision |
| TokenBucket.RetryIsAdmitted | packages/core/src/rate-limit.ts:88-96 | a refused caller who waits retryAfterSeconds alone is admitted, when the capacity is at least one |
| TokenAnswers.CallAnswers | packages/core/src/rate-limit.ts:70-114 | a call passes exactly when the key's bucket, refilled at limit/window up to its capacity, holds a whole token; it takes one, or is told the least whole seconds, at least one, that bring one; swept and other buckets included |
| RateLimiter.TokenBucketRateLimiter.Check | packages/core/src/rate-limit.ts:70-105 | new buckets and decision of a call |
| RateLimiter.TokenBucketRateLimiter.Sweep | packages/core/src/rate-limit.ts:107-114 | the loop drops exactly the long idle buckets, at most once a minute |
| IdempotencyKeys.OneResultRecorded | packages/core/src/idempotency.ts:170-182 | in a run in which no owner's error path reopens the completed row, at most one result is recorded and the row holds it |
| IdempotencyKeys.CompletedIsReplayed | packages/core/src/idempotency.ts:94-108 | in such a run a COMPLETED row never changes; a later caller with the same hash gets its result, with another hash an error |
| IdempotencyKeys.OnlySameRequestIsServed | packages/core/src/idempotency.ts:94-97 | on every run whoever runs the function, takes over or is given a result came with the request hash the key was first used for |
| IdempotencyKeys.AcquireAnswers | packages/core/src/idempotency.ts:56-135 | what claim, read and take-over answer for every row: by hash, then state; taken over exactly when failed or its lease ended, its request kept |
| IdempotencyKeys.CompletedRowChangesExactlyWhenReopened | packages/core/src/idempotency.ts:192-204 | in every reachable world a step changes a COMPLETED row if and only if it is the owner marking it FAILED after its recording call threw |
| IdempotencyKeys.FinalExactlyWhenNeverReopened | packages/core/src/idempotency.ts:170-204 | completed rows stay as they are throughout a run if and only if the run has no such step |
| IdempotencyKeys.SucceedsAtMostOnce | packages/core/src/idempotency.ts:110-135 | if every run of the function that succeeds is recorded inside its lease, it succeeds at most once |
| IdempotencyKeys.CrashRunSucceedsTwice | packages/core/src/idempotency.ts:110-135 | for every lease, a run in which each success returns inside its lease but one caller crashes before recording, and the function succeeds twice |
| IdempotencyKeys.LateRunSucceedsTwice | packages/core/src/idempotency.ts:110-131 | for every lease and every limit that reaches it, a run whose successes are all claimed and recorded within the limit, with no crash or refusal, and in which the function succeeds twice |
| IdempotencyKeys.SucceedsOnceExactlyWhenLeaseIsLonger | packages/core/src/idempotency.ts:110-135 | with one lease for all callers and a limit from claim to recorded result, the function succeeds at most once in all such runs if and only if the limit is below the lease |
| IdempotencyKeys.LostReplyRecordsTwice | packages/core/src/idempotency.ts:192-204 | a run, for any lease and results, in which the reply to the recording write is lost and two different results are recorded for one request |
| Idempotency.IdempotencyTable.Acquire | packages/core/src/idempotency.ts:56-135 | claim, read and take over, and what the caller is told |
| Idempotency.IdempotencyTable.RunIdempotent | packages/core/src/idempotency.ts:43-205 | one undisturbed call: bad key, first use, replay, reuse with another request |

## Left out

- HTTP routes, checkout pages, bots, the admin panel, the SDK, configuration loading, logging, metrics and notifications:
  transport and user interface.
- The real TON, CubePay, market, Telegram, Redis and queue adapters: foreign calls. The chain is the port contract.
- SHA-256, Ed25519 and TON cell serialization: arbitrary functions, with the assumption named above where one is needed.
- SQL, isolation levels and retries: a transaction is one step. CHECK constraints, column limits and unique indexes that can bind appear as
  refusals of the step.
- Refunds, disputes, outbox and webhook delivery, receipts, reconciliation exceptions, support tickets, paging: they post
  nothing to the ledger and, holds apart, write no row of the modelled tables.
- `payout_items` (db/migrations/002_finance_ledger.sql:274-284, 010_payout_items_retry.sql): the audit trail from a payout to
  the payments it covers; no modelled step reads it back and its insert cannot refuse the queue step.
- Risk scoring: its outcome is the boolean that places a hold.
- The chart of accounts is fixed and a merchant's account exists from the start; the source creates it on first use.
- Several treasury accounts: there is one, always active, and its safety reserve never changes.
- Unique invoice numbers and the provider's payable snapshot: the snapshot is a parameter of the invoice.
- The transition log and the reason texts on a payout row: nothing reads them back in the modelled steps.
- `verifySequenceContinuity`: it compares numbers with positions, and nothing else reads its answer.
- Signing requests without a database, and rows written before intent hashes existed.
- `reserveQueuedPayouts`: the selection is modelled, the loop that reserves what was selected is runs of the reserve step.
- Liveness of payouts, of the sequence gate and of payment credit: the code does not guarantee it.
- Gateway.Gateway.PrepareBroadcast: the answer of the sequence gate is a parameter; `SeqnoTables` proves what it means, and
  the calls that move the sequence tables from within payout transactions are runs of that module.
- LedgerBlocks.BlockLedger.VerifyLedgerBlocks: counts the mismatches and does not model the texts of the messages.
- TokenBucket.BudgetExactly: real arithmetic, so the rounding of floating-point token counts is not modelled; the
  equivalence is for whole capacities, which all limits of the application have, the bound itself (`BudgetHolds`) for all.
- Gateway.Gateway.QueuePayout: `payout_items` is left out, for the reason above.
- Gateway.Gateway.AddPayout: `payout_items` is left out, for the reason above.
- Idempotency.IdempotencyTable.RunIdempotent: the mirror table, the aggregate columns and purging are not modelled.
