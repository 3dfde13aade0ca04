/**
 The tables as fields that each use case updates step by step. Every method is one database transaction and is
 proved equal, result and state, to its specification in `Pipeline`; when it refuses, every field is as before.
 */
module Gateway {
  import opened Basics
  import opened MoneyMath
  import opened Sums
  import opened Ledger
  import opened Fees
  import P = Pipeline
  import opened Pipeline

  /** Owners of the reservations that lapse at `now`, in table order. */
  function StaleOwners(rs: seq<Reservation>, now: int): (owners: seq<nat>)
    ensures forall id :: id in owners <==> HasStale(rs, id, now)
  {
    if rs == [] then []
    else
      var n := |rs| - 1;
      StaleSplit(rs, now);
      if Stale(rs[n], now) then StaleOwners(rs[..n], now) + [rs[n].payout] else StaleOwners(rs[..n], now)
  }

  lemma StaleSplit(rs: seq<Reservation>, now: int)
    requires rs != []
    ensures var n := |rs| - 1;
            forall id :: HasStale(rs, id, now) <==> HasStale(rs[..n], id, now) || (rs[n].payout == id && Stale(rs[n], now))
  {
    var n := |rs| - 1;
    forall id | HasStale(rs[..n], id, now) ensures HasStale(rs, id, now) {
      var k :| 0 <= k < n && rs[..n][k].payout == id && Stale(rs[..n][k], now);
      assert rs[k].payout == id && Stale(rs[k], now);
    }
    forall id | HasStale(rs, id, now) && !(rs[n].payout == id && Stale(rs[n], now)) ensures HasStale(rs[..n], id, now) {
      var k :| 0 <= k < |rs| && rs[k].payout == id && Stale(rs[k], now);
      assert rs[..n][k] == rs[k];
    }
  }

  class Gateway {
    const ledger: LedgerService
    var invoices: seq<Invoice>
    var payments: seq<Payment>
    var payouts: seq<Payout>
    var reservations: seq<Reservation>
    var confirmed: int
    var safety: int
    var treasuryTxs: seq<TreasuryTx>

    ghost predicate Valid()
      reads this, ledger
    {
      ledger.Valid()
    }

    ghost function State(): Db
      reads this, ledger
    {
      Db(ledger.journals, invoices, payments, payouts, reservations, confirmed, safety, treasuryTxs)
    }

    constructor (safetyReserve: nat)
      ensures Valid() && fresh(ledger) && State() == EmptyDb(safetyReserve)
    {
      ledger := new LedgerService();
      invoices, payments, payouts, reservations, treasuryTxs := [], [], [], [], [];
      confirmed, safety := 0, safetyReserve;
    }

    // -------------------------------------------------------------------------
    // Invoices
    // -------------------------------------------------------------------------

    method CreateInvoice(q: InvoiceRequest) returns (r: Result<nat, Error>)
      requires Valid()
      modifies this
      ensures Valid() && Step(State(), r) == P.CreateInvoice(old(State()), q)
    {
      if q.base <= 0 { return Err(AmountNotPositive); }
      if q.base > MAX_TOMAN { return Err(AmountTooLarge); }
      if q.expiresIn < 60 || q.expiresIn > 30 * 24 * 3600 { return Err(InvalidExpiry); }
      if !q.merchantActive { return Err(MerchantNotActive); }
      var breakdown := CalculateFees(Toman(q.base), q.mode, q.rateBps);
      if breakdown.Err? { return Err(FeeRefused(breakdown.error)); }
      invoices := invoices + [Invoice(q.merchant, breakdown.value, INVOICE_CREATED, q.now + q.expiresIn, q.payToman, q.payRial)];
      return Ok(|invoices| - 1);
    }

    method CancelInvoice(merchant: nat, id: nat) returns (r: Result<bool, Error>)
      requires Valid()
      modifies this
      ensures Valid() && Step(State(), r) == P.CancelInvoice(old(State()), merchant, id)
    {
      if id >= |invoices| || invoices[id].merchant != merchant { return Err(NotFound); }
      if invoices[id].status == CANCELLED { return Ok(true); }
      if invoices[id].status != INVOICE_CREATED { return Err(InvoiceNotCancellable); }
      if exists k :: 0 <= k < |payments| && payments[k].invoice == id && payments[k].status == VERIFIED {
        return Err(InvoiceHasPayment);
      }
      invoices := invoices[id := invoices[id].(status := CANCELLED)];
      return Ok(false);
    }

    method ExpireInvoices(now: int) returns (r: Result<(), Error>)
      requires Valid()
      modifies this
      ensures Valid() && Step(State(), r) == P.ExpireInvoices(old(State()), now)
    {
      var rows := invoices;
      invoices := seq(|rows|, i requires 0 <= i < |rows| => AfterExpiry(rows[i], now));
      return Ok(());
    }

    // -------------------------------------------------------------------------
    // Payments
    // -------------------------------------------------------------------------

    method RecordUncredited(inv: nat, ev: Evidence, status: PaymentStatus) returns (r: Result<FinalizeResult, Error>)
      requires Valid() && inv < |invoices|
      modifies this
      ensures Valid() && Step(State(), r) == Uncredited(old(State()), inv, ev, status)
    {
      if status == MISMATCH && ev.paid < 0 { return Err(NegativePaidAmount); }
      payments := payments + [NewPayment(inv, invoices[inv], ev, status, None)];
      return Ok(FinalizeResult(|payments| - 1, status, false));
    }

    method FinalizePayment(inv: nat, ev: Evidence, holdTime: int, providerBps: nat) returns (r: Result<FinalizeResult, Error>)
      requires Valid()
      modifies this, ledger
      ensures Valid() && Step(State(), r) == P.FinalizePayment(old(State()), inv, ev, holdTime, providerBps)
    {
      if ev.externalId == "" { return Err(MissingExternalId); }
      if inv >= |invoices| { return Err(NotFound); }
      var i := invoices[inv];
      var existing := FindPayment(payments, ev.provider, ev.externalId);
      if existing.Some? { return Ok(FinalizeResult(existing.value, payments[existing.value].status, false)); }
      if ev.orderId.Some? && ev.orderId.value != inv { return Err(OrderIdMismatch); }
      if ev.status != PROVIDER_PAID {
        r := RecordUncredited(inv, ev, if ev.status == PROVIDER_FAILED then PAYMENT_FAILED else PAYMENT_UNKNOWN);
        return;
      }
      if i.payRial.Some? && RialDiffers(ev.rawRial, i.payRial.value) {
        r := RecordUncredited(inv, ev, MISMATCH);
        return;
      }
      var expected := if i.payToman.Some? then i.payToman.value else i.fees.customerTotal;
      if ev.paid != expected {
        r := RecordUncredited(inv, ev, MISMATCH);
        return;
      }
      if i.status != INVOICE_CREATED { return Err(InvoiceNotPayable); }
      if ev.paidAt.None? { return Err(InvalidPaidAt); }
      if ev.paidAt.value > i.expiresAt {
        r := RecordUncredited(inv, ev, MISMATCH);
        return;
      }
      r := CreditMatched(inv, ev, holdTime, providerBps);
    }

    /** Work out the provider's fee; the payment table takes no negative amount and no release before the payment. */
    method CreditMatched(inv: nat, ev: Evidence, holdTime: int, providerBps: nat) returns (r: Result<FinalizeResult, Error>)
      requires Valid() && inv < |invoices| && ev.paidAt.Some?
      modifies this, ledger
      ensures Valid() && Step(State(), r) == CreditPayment(old(State()), inv, ev, holdTime, providerBps)
    {
      var cost := CalculateProviderCost(Toman(invoices[inv].fees.customerTotal), providerBps);
      if cost.Err? { return Err(FeeRefused(cost.error)); }
      var booked := if ev.reportedFee.Some? then ev.reportedFee.value else cost.value;
      if ev.paid < 0 { return Err(NegativePaidAmount); }
      if holdTime < 0 { return Err(ReleaseBeforePaid); }
      r := CreditVerified(inv, ev, ev.paidAt.value + holdTime, booked);
    }

    /** Insert the payment, post its lines and mark the invoice paid; a refused posting undoes the insert. */
    method CreditVerified(inv: nat, ev: Evidence, releaseAt: int, booked: int) returns (r: Result<FinalizeResult, Error>)
      requires Valid() && inv < |invoices|
      modifies this, ledger
      ensures Valid() && Step(State(), r) == PostCredit(old(State()), inv, ev, releaseAt, booked)
    {
      var saved := payments;
      var i := invoices[inv];
      payments := payments + [NewPayment(inv, i, ev, VERIFIED, Some(releaseAt))];
      var lines := [Debit(System(ProviderClearingToman), Toman(i.fees.customerTotal)),
                    Credit(Merchant(i.merchant), Toman(i.fees.merchantNet), PENDING)];
      if i.fees.platformFee > 0 {
        lines := lines + [Credit(System(PlatformRevenueToman), Toman(i.fees.platformFee))];
      }
      if booked > 0 {
        lines := lines + [Debit(System(PlatformExpenseToman), Toman(booked)), Credit(System(ProviderClearingToman), Toman(booked))];
      }
      assert lines == CreditLines(i, booked);
      var posting := ledger.Post(JournalDraft(PaymentRef(|saved|), Some(PaymentVerified(ev.provider, ev.externalId)), lines));
      if posting.Refused? {
        payments := saved;
        return Err(NotPosted(posting.error));
      }
      if !posting.created {
        payments := saved;
        return Err(DuplicateOperation);
      }
      invoices := invoices[inv := i.(status := PAID)];
      return Ok(FinalizeResult(|saved|, VERIFIED, true));
    }

    method SetHold(id: nat, held: bool) returns (r: Result<(), Error>)
      requires Valid()
      modifies this
      ensures Valid() && Step(State(), r) == P.SetHold(old(State()), id, held)
    {
      if id >= |payments| { return Err(NotFound); }
      payments := payments[id := payments[id].(held := held)];
      return Ok(());
    }

    method ReleasePayment(id: nat, now: int, merchantActive: bool) returns (r: Result<Option<int>, Error>)
      requires Valid()
      modifies this, ledger
      ensures Valid() && Step(State(), r) == P.ReleasePayment(old(State()), id, now, merchantActive)
    {
      if id >= |payments| || payments[id].status != VERIFIED { return Ok(None); }
      var p := payments[id];
      if p.releaseAt.None? || p.releaseAt.value > now { return Ok(None); }
      if !merchantActive || p.held { return Ok(None); }
      var amount := PendingAmount(ledger.journals, id);
      if amount <= 0 { return Err(NothingPending); }
      var posting := ledger.Post(JournalDraft(PaymentRef(id), Some(PaymentReleased(id)), ReleaseLines(p.merchant, amount)));
      if posting.Refused? { return Err(NotPosted(posting.error)); }
      if !posting.created { return Err(DuplicateOperation); }
      payments := payments[id := p.(status := PAYMENT_RELEASED)];
      return Ok(Some(amount));
    }

    // -------------------------------------------------------------------------
    // Queue, lock, reserve
    // -------------------------------------------------------------------------

    method QueuePayout(q: QueueRequest) returns (r: Result<QueueResult, Error>)
      requires Valid()
      modifies this, ledger
      ensures Valid() && Step(State(), r) == P.QueuePayout(old(State()), q)
    {
      if !q.merchantActive { return Ok(Skipped(NotActive)); }
      if !q.instant && !q.autoPayout { return Ok(Skipped(AutoPayoutDisabled)); }
      if HasInFlight(payouts, q.merchant) { return Ok(Skipped(AlreadyInFlight)); }
      if q.wallet.None? { return Ok(Skipped(WalletNotActive)); }
      var wallet := q.wallet.value;
      if wallet.holdUntil.Some? && wallet.holdUntil.value > q.now { return Ok(Skipped(WalletSecurityHold)); }
      var available := Column(Row(ledger.balances, Merchant(q.merchant)), AVAILABLE);
      assert available == Balance(ledger.journals, Merchant(q.merchant), AVAILABLE);
      var gross := available;
      if q.requested.Some? {
        if q.requested.value > available { return Ok(Skipped(InsufficientBalance)); }
        gross := q.requested.value;
      }
      if gross < q.minPayout { return Ok(Skipped(BelowMinimum)); }
      if gross > q.maxPayout { gross := q.maxPayout; }
      if gross < 0 { return Err(AmountNotPositive); }
      if gross > MAX_TOMAN { return Err(AmountTooLarge); }
      var fee := 0;
      if q.instant { fee := Rounded(gross * 2, 100, FLOOR); }
      if gross - fee <= 0 { return Ok(Skipped(NetNonPositive)); }
      r := AddPayout(q.merchant, q.instant, gross, fee, wallet, q.now);
    }

    method AddPayout(merchant: nat, instant: bool, gross: int, fee: int, w: Wallet, now: int) returns (r: Result<QueueResult, Error>)
      requires Valid()
      modifies this, ledger
      ensures Valid() && Step(State(), r) == InsertPayout(old(State()), merchant, instant, gross, fee, w, now)
    {
      if HasUnfinished(payouts, merchant) { return Err(MerchantInFlight); }
      var row := Payout(merchant, gross - fee, gross, fee, instant, None, w.address, w.network, CREATED, None, None, 0, now);
      r := MoveToSettling(row);
    }

    method SettlingLines(row: Payout) returns (lines: seq<JournalLine>)
      ensures lines == QueueLines(row.merchant, row.gross, row.amount, row.fee)
    {
      lines := [Debit(Merchant(row.merchant), Toman(row.gross), AVAILABLE),
                Credit(Merchant(row.merchant), Toman(row.amount), SETTLING)];
      if row.fee > 0 {
        lines := lines + [Credit(System(InstantWithdrawalRevenueToman), Toman(row.fee))];
      }
    }

    /** Insert the payout as CREATED, move the money, then mark it QUEUED; a refused posting undoes the insert. */
    method MoveToSettling(row: Payout) returns (r: Result<QueueResult, Error>)
      requires Valid()
      modifies this, ledger
      ensures Valid() && Step(State(), r) == PostPayout(old(State()), row.(status := QUEUED))
    {
      var saved := payouts;
      var id := |payouts|;
      payouts := payouts + [row];
      var lines := SettlingLines(row);
      var posting := ledger.Post(JournalDraft(PayoutRef(id), Some(PayoutQueued(id)), lines));
      if posting.Refused? || !posting.created {
        payouts := saved;
        return Err(if posting.Refused? then NotPosted(posting.error) else DuplicateOperation);
      }
      payouts := payouts[id := row.(status := QUEUED)];
      assert payouts == saved + [row.(status := QUEUED)];
      return Ok(Queued(id, row.amount, row.gross, row.fee));
    }

    method LockRate(id: nat, quote: string, source: string, expired: bool, now: int) returns (r: Result<int, Error>)
      requires Valid()
      modifies this
      ensures Valid() && Step(State(), r) == P.LockRate(old(State()), id, quote, source, expired, now)
    {
      if id >= |payouts| { return Err(NotFound); }
      var p := payouts[id];
      if p.status != QUEUED && p.status != WAITING_LIQUIDITY { return Err(NotInExpectedState); }
      if expired { return Err(QuoteExpired); }
      var rate := RateOf(quote, source);
      if rate.Err? { return Err(BadQuote(rate.error)); }
      var gram := NanoGram(p.amount, rate.value, FLOOR);
      if gram <= 0 { return Err(AmountTooSmall); }
      if gram > MAX_GRAM { return Err(AmountTooLarge); }
      if rate.value.scaled >= RATE_LIMIT { return Err(RateTooLarge); }
      payouts := payouts[id := p.(gram := Some(gram), status := RATE_LOCKED, updatedAt := now)];
      return Ok(gram);
    }

    method ReserveLiquidity(id: nat, now: int, ttl: int) returns (r: Result<ReserveResult, Error>)
      requires Valid()
      modifies this
      ensures Valid() && Step(State(), r) == P.ReserveLiquidity(old(State()), id, now, ttl)
    {
      if id >= |payouts| { return Err(NotFound); }
      var p := payouts[id];
      if p.status != RATE_LOCKED { return Err(NotInExpectedState); }
      if p.gram.None? { return Err(RateNotLocked); }
      var required := p.gram.value;
      var spendable := confirmed - Sum(reservations, ActiveAmount()) - safety;
      if spendable < required {
        payouts := payouts[id := p.(status := WAITING_LIQUIDITY, updatedAt := now)];
        return Ok(Waiting(required, spendable));
      }
      if HasActive(reservations, id) { return Err(ReservationExists); }
      reservations := reservations + [Reservation(id, required, ACTIVE, now + ttl)];
      payouts := payouts[id := p.(status := RESERVED, updatedAt := now)];
      return Ok(Reserved(|reservations| - 1, required));
    }

    // -------------------------------------------------------------------------
    // Sign and broadcast
    // -------------------------------------------------------------------------

    /** The guarded status update: the row must be in an expected state, and the table must accept the new one. */
    method TransitionState(id: nat, from: set<PayoutStatus>, row: Payout, to: PayoutStatus) returns (r: Result<(), Error>)
      requires id < |payouts|
      modifies this`payouts
      ensures Transition(old(payouts), id, from, row, to) == if r.Ok? then Ok(payouts) else Err(r.error)
      ensures r.Err? ==> payouts == old(payouts)
    {
      if payouts[id].status !in from { return Err(NotInExpectedState); }
      var refused := RowError(payouts, id, row.(status := to));
      if refused.Some? { return Err(refused.value); }
      payouts := payouts[id := row.(status := to)];
      return Ok(());
    }

    method CheckSignable(id: nat, now: int, assetIsGram: bool, network: string, addressValid: bool)
      returns (r: Result<Signable, Error>)
      ensures r == P.CheckSignable(State(), id, now, assetIsGram, network, addressValid)
    {
      if id >= |payouts| { return Err(NotFound); }
      var p := payouts[id];
      if p.status == SIGNED && p.signingReference.Some? { return Ok(AlreadySigned(p.signingReference.value)); }
      if p.status != RESERVED { return Err(NotInExpectedState); }
      if p.gram.None? { return Err(RateNotLocked); }
      if !assetIsGram { return Err(AssetMismatch); }
      if p.network != network { return Err(NetworkMismatch); }
      if !addressValid { return Err(WalletInvalid); }
      var active := FindActive(reservations, id, now);
      if active.None? { return Err(ReservationMissingOrExpired); }
      if reservations[active.value].amount != p.gram.value { return Err(AmountMismatch); }
      return Ok(ReadyToSign(p.gram.value, p.destination, p.network));
    }

    method RecordSignature(id: nat, reference: string, now: int) returns (r: Result<string, Error>)
      requires Valid()
      modifies this
      ensures Valid() && Step(State(), r) == P.RecordSignature(old(State()), id, reference, now)
    {
      if id >= |payouts| { return Err(NotFound); }
      var p := payouts[id];
      if p.status == SIGNED && p.signingReference.Some? { return Ok(p.signingReference.value); }
      var moved := TransitionState(id, {RESERVED}, p.(signingReference := Some(reference), updatedAt := now), SIGNED);
      return if moved.Ok? then Ok(reference) else Err(moved.error);
    }

    method PrepareBroadcast(id: nat, now: int, gateOpen: bool, wallet: Option<Wallet>) returns (r: Result<Broadcastable, Error>)
      requires Valid()
      modifies this
      ensures Valid() && Step(State(), r) == P.PrepareBroadcast(old(State()), id, now, gateOpen, wallet)
    {
      if id >= |payouts| { return Err(NotFound); }
      var p := payouts[id];
      if p.status != SIGNED { return Err(NotInExpectedState); }
      if !gateOpen { return Ok(QueuedForOrder); }
      var active := FindActive(reservations, id, now);
      if active.None? { return Err(ReservationMissingOrExpired); }
      if wallet.None? || wallet.value.address != p.destination || wallet.value.network != p.network {
        return Err(DestinationMismatch);
      }
      if p.gram != Some(reservations[active.value].amount) { return Err(AmountMismatch); }
      payouts := payouts[id := p.(attempts := p.attempts + 1, updatedAt := now)];
      return Ok(Send(p.gram.value, p.destination, p.network));
    }

    method RecordBroadcast(id: nat, txHash: Option<string>, now: int) returns (r: Result<(), Error>)
      requires Valid()
      modifies this
      ensures Valid() && Step(State(), r) == P.RecordBroadcast(old(State()), id, txHash, now)
    {
      if id >= |payouts| { return Err(NotFound); }
      var moved := TransitionState(id, {SIGNED}, payouts[id].(txHash := txHash, updatedAt := now), BROADCASTED);
      return if moved.Ok? then Ok(()) else Err(moved.error);
    }

    method MarkUnknown(id: nat, now: int) returns (r: Result<(), Error>)
      requires Valid()
      modifies this
      ensures Valid() && Step(State(), r) == P.MarkUnknown(old(State()), id, now)
    {
      if id >= |payouts| { return Err(NotFound); }
      var moved := TransitionState(id, {RESERVED, SIGNED, BROADCASTED, CONFIRMING}, payouts[id].(updatedAt := now), UNKNOWN);
      return if moved.Ok? then Ok(()) else Err(moved.error);
    }

    method MarkConfirming(id: nat, txHash: string, now: int) returns (r: Result<bool, Error>)
      requires Valid()
      modifies this
      ensures Valid() && Step(State(), r) == P.MarkConfirming(old(State()), id, txHash, now)
    {
      if id >= |payouts| { return Ok(false); }
      if payouts[id].status != BROADCASTED { return Ok(false); }
      var moved := TransitionState(id, {BROADCASTED}, payouts[id].(txHash := Some(txHash), updatedAt := now), CONFIRMING);
      return if moved.Ok? then Ok(true) else Err(moved.error);
    }

    // -------------------------------------------------------------------------
    // Settle, fail, reconcile, expire, fund
    // -------------------------------------------------------------------------

    method SettlePayout(id: nat, ev: ChainEvidence, required: int, now: int) returns (r: Result<bool, Error>)
      requires Valid()
      modifies this, ledger
      ensures Valid() && Step(State(), r) == P.SettlePayout(old(State()), id, ev, required, now)
    {
      if id >= |payouts| { return Err(NotFound); }
      var p := payouts[id];
      if p.status == SETTLED { return Ok(false); }
      if p.status !in {BROADCASTED, CONFIRMING, UNKNOWN} { return Err(NotInExpectedState); }
      var mismatch := EvidenceError(p, ev, required);
      if mismatch.Some? { return Err(mismatch.value); }
      var gram := if p.gram.Some? then p.gram.value else 0;
      var networkFee := if ev.networkFee.Some? then ev.networkFee.value else 0;
      r := CloseLiability(id, ev, gram, networkFee, now);
    }

    /** The two balanced legs of a settlement: the merchant's Toman liability, and principal plus fee in GRAM. */
    method SettlementLines(p: Payout, gram: int, networkFee: int) returns (lines: seq<JournalLine>)
      ensures lines == SettleLines(p, gram, networkFee)
    {
      lines := [Debit(Merchant(p.merchant), Toman(p.amount), SETTLING),
                Credit(System(SettlementClearingToman), Toman(p.amount)),
                Debit(System(SettlementClearingGram), Gram(gram))];
      if networkFee > 0 {
        lines := lines + [Debit(System(NetworkFeeExpenseGram), Gram(networkFee))];
      }
      lines := lines + [Credit(System(TreasuryGram), Gram(gram + networkFee))];
    }

    /** Take principal and fee off the treasury row and record the transfers. */
    method DebitTreasury(ev: ChainEvidence, gram: int, networkFee: int)
      modifies this`confirmed, this`treasuryTxs
      ensures confirmed == old(confirmed) - (gram + networkFee)
      ensures treasuryTxs == SettleTxs(old(treasuryTxs), ev, gram, networkFee)
    {
      confirmed := confirmed - (gram + networkFee);
      treasuryTxs := InsertTx(treasuryTxs, TreasuryTx(false, gram + networkFee, ev.txHash));
      if networkFee > 0 {
        treasuryTxs := InsertTx(treasuryTxs, TreasuryTx(false, networkFee, ev.txHash + ":fee"));
      }
    }

    /** Post the settlement, debit the treasury row, consume the reservation, then mark the payout SETTLED, or undo it all. */
    method CloseLiability(id: nat, ev: ChainEvidence, gram: int, networkFee: int, now: int) returns (r: Result<bool, Error>)
      requires Valid() && id < |payouts|
      modifies this, ledger
      ensures Valid() && Step(State(), r) == PostSettlement(old(State()), id, ev, gram, networkFee, now)
    {
      var p := payouts[id];
      var savedJournals, savedBalances := ledger.journals, ledger.balances;
      var savedConfirmed, savedTxs, savedReservations := confirmed, treasuryTxs, reservations;
      var lines := SettlementLines(p, gram, networkFee);
      var posting := ledger.Post(JournalDraft(PayoutRef(id), Some(PayoutSettled(id)), lines));
      if posting.Refused? { return Err(NotPosted(posting.error)); }
      if !posting.created { return Ok(false); }
      if HasReservation(reservations, id) {
        if confirmed < gram + networkFee {
          ledger.Rollback(savedJournals, savedBalances);
          return Err(TreasuryOverdrawn);
        }
        DebitTreasury(ev, gram, networkFee);
      }
      reservations := Resolve(reservations, id, CONSUMED);
      var refused := RowError(payouts, id, p.(status := SETTLED, txHash := Some(ev.txHash), updatedAt := now));
      if refused.Some? {
        ledger.Rollback(savedJournals, savedBalances);
        confirmed, treasuryTxs, reservations := savedConfirmed, savedTxs, savedReservations;
        return Err(refused.value);
      }
      payouts := payouts[id := p.(status := SETTLED, txHash := Some(ev.txHash), updatedAt := now)];
      return Ok(true);
    }

    method FailPayout(id: nat, now: int) returns (r: Result<bool, Error>)
      requires Valid()
      modifies this, ledger
      ensures Valid() && Step(State(), r) == P.FailPayout(old(State()), id, now)
    {
      if id >= |payouts| { return Err(NotFound); }
      var p := payouts[id];
      if p.status == FAILED { return Ok(false); }
      if p.status == SETTLED { return Err(AlreadySettled); }
      if p.status == UNKNOWN { return Err(UnknownNoBlindRetry); }
      var lines := [Debit(Merchant(p.merchant), Toman(p.amount), SETTLING), Credit(Merchant(p.merchant), Toman(p.amount), AVAILABLE)];
      if p.instant && p.fee > 0 {
        lines := lines + [Debit(System(InstantWithdrawalRevenueToman), Toman(p.fee)),
                          Credit(Merchant(p.merchant), Toman(p.fee), AVAILABLE)];
      }
      assert lines == FailLines(p);
      var posting := ledger.Post(JournalDraft(PayoutRef(id), Some(PayoutFailed(id)), lines));
      if posting.Refused? { return Err(NotPosted(posting.error)); }
      if !posting.created { return Ok(false); }
      reservations := Resolve(reservations, id, RELEASED);
      payouts := payouts[id := p.(status := FAILED, updatedAt := now)];
      return Ok(true);
    }

    method ResetNotFound(id: nat, now: int) returns (r: Result<(), Error>)
      requires Valid()
      modifies this
      ensures Valid() && Step(State(), r) == P.ResetNotFound(old(State()), id, now)
    {
      if id < |payouts| && payouts[id].status == UNKNOWN {
        payouts := payouts[id := payouts[id].(status := RESERVED, updatedAt := now)];
      }
      return Ok(());
    }

    /** Lapse the reservations, then take each owner that is still RESERVED back to RATE_LOCKED. */
    method ExpireReservations(now: int) returns (r: Result<(), Error>)
      requires Valid()
      modifies this
      ensures Valid() && Step(State(), r) == P.ExpireReservations(old(State()), now)
    {
      var before := payouts;
      var expired := StaleOwners(reservations, now);
      reservations := Lapse(reservations, now);
      for i := 0 to |expired|
        invariant |payouts| == |before|
        invariant forall k :: 0 <= k < |before| ==>
          payouts[k] == if before[k].status == RESERVED && k in expired[..i]
                        then before[k].(status := RATE_LOCKED, updatedAt := now) else before[k]
        invariant reservations == old(Lapse(reservations, now)) && ledger.Valid()
        invariant State() == old(State()).(reservations := reservations, payouts := payouts)
      {
        var id := expired[i];
        assert expired[..i + 1] == expired[..i] + [id];
        if id < |payouts| && payouts[id].status == RESERVED {
          payouts := payouts[id := payouts[id].(status := RATE_LOCKED, updatedAt := now)];
        }
      }
      assert expired[..|expired|] == expired;
      assert payouts == Unreserve(before, old(reservations), now);
      return Ok(());
    }

    method FundTreasury(amount: int, txHash: string) returns (r: Result<bool, Error>)
      requires Valid()
      modifies this, ledger
      ensures Valid() && Step(State(), r) == P.FundTreasury(old(State()), amount, txHash)
    {
      if amount <= 0 { return Err(AmountNotPositive); }
      if amount > MAX_GRAM { return Err(AmountTooLarge); }
      if KnownTx(treasuryTxs, txHash) { return Ok(false); }
      var savedTxs, savedConfirmed := treasuryTxs, confirmed;
      treasuryTxs := treasuryTxs + [TreasuryTx(true, amount, txHash)];
      confirmed := confirmed + amount;
      var posting := ledger.Post(JournalDraft(TreasuryRef, Some(TreasuryFunded(txHash)), FundLines(amount)));
      if posting.Refused? {
        treasuryTxs, confirmed := savedTxs, savedConfirmed;
        return Err(NotPosted(posting.error));
      }
      return Ok(true);
    }
  }
}
