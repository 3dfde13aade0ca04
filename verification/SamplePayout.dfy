/** One merchant's first payout, from an empty database to the point where it is handed to the chain. */
module SamplePayout {
  import opened Basics
  import opened Decimal
  import opened MoneyMath
  import opened Sums
  import opened Ledger
  import opened Fees
  import opened Pipeline
  import opened PipelineInvariants
  import opened PipelineTheorems
  import opened PaymentSteps

  const REQUEST := InvoiceRequest(0, true, 1, MERCHANT, 0, 60, 0, None, None)
  const EVIDENCE := Evidence("p", "e", None, PROVIDER_PAID, NotReported, 1, Some(0), Some(0), false)
  const WALLET := Wallet("w", "n", None)
  const PAYABLE := QueueRequest(0, true, false, true, None, Some(WALLET), 0, 1, 0)
  const NANO := 1_000_000_000

  /** Nothing is reserved, funded or queued yet. */
  ghost predicate Untouched(db: Db) {
    && db.payouts == [] && db.reservations == [] && db.treasuryTxs == [] && db.confirmed == 0 && db.safety == 0
  }

  ghost predicate Invoiced(db: Db) {
    && Reachable(db) && Untouched(db) && db.payments == []
    && |db.invoices| == 1
    && db.invoices[0] == Invoice(0, FeeBreakdown(1, 1, 0, 0, 0, 1), INVOICE_CREATED, 60, None, None)
  }

  lemma InvoiceIsCreated()
    ensures Invoiced(Apply(EmptyDb(0), OpCreateInvoice(REQUEST)))
  {
    assert Run(EmptyDb(0), []) == EmptyDb(0);
    assert Reachable(EmptyDb(0));
    ReachableApply(EmptyDb(0), OpCreateInvoice(REQUEST));
    FloorIsEuclidean(0, 10_000);
    assert CalculateFees(Toman(1), MERCHANT, 0) == Ok(FeeBreakdown(1, 1, 0, 0, 0, 1));
  }

  ghost predicate Credited1(db: Db) {
    && Reachable(db) && Untouched(db) && |db.payments| == 1 && |db.invoices| == 1
    && db.payments[0].merchant == 0 && db.payments[0].invoice == 0 && db.payments[0].status == VERIFIED
    && db.payments[0].releaseAt == Some(0) && !db.payments[0].held && db.invoices[0].fees.merchantNet == 1
  }

  lemma PaymentIsCredited(db: Db)
    requires Invoiced(db)
    ensures Credited1(Apply(db, OpFinalizePayment(0, EVIDENCE, 0, 0)))
  {
    ReachableApply(db, OpFinalizePayment(0, EVIDENCE, 0, 0));
    PaymentMatches(db);
    CreditedRow(db);
  }

  lemma PaymentMatches(db: Db)
    requires Invoiced(db)
    ensures FinalizePayment(db, 0, EVIDENCE, 0, 0) == CreditPayment(db, 0, EVIDENCE, 0, 0)
    ensures CreditPayment(db, 0, EVIDENCE, 0, 0).result.Ok? && CreditPayment(db, 0, EVIDENCE, 0, 0).result.value.credited
  {
    ReachableHolds(db);
    assert Matches(db, 0, EVIDENCE);
    NonNegativeRounds(1, 0, CEIL);
    assert BalanceBearing(CLEARING) && Balance(db.journals, CLEARING, AVAILABLE) >= 0;
    CreditsExactlyWhenMatched(db, 0, EVIDENCE, 0, 0);
    MatchedIsCreditPayment(db, 0, EVIDENCE, 0, 0);
  }

  lemma CreditedRow(db: Db)
    requires Invoiced(db)
    requires CreditPayment(db, 0, EVIDENCE, 0, 0).result.Ok? && CreditPayment(db, 0, EVIDENCE, 0, 0).result.value.credited
    ensures var next := CreditPayment(db, 0, EVIDENCE, 0, 0).db;
            && Untouched(next)
            && next.payments == [NewPayment(0, db.invoices[0], EVIDENCE, VERIFIED, Some(0))]
            && next.invoices == [db.invoices[0].(status := PAID)]
  {
  }

  ghost predicate Released(db: Db) {
    Reachable(db) && Untouched(db) && Balance(db.journals, Merchant(0), AVAILABLE) == 1
  }

  lemma PaymentIsReleased(db: Db)
    requires Credited1(db)
    ensures Released(Apply(db, OpReleasePayment(0, 0, true)))
  {
    var next := Apply(db, OpReleasePayment(0, 0, true));
    ReachableApply(db, OpReleasePayment(0, 0, true));
    ReleasesExactlyWhenEligible(db, 0, 0, true);
    ReleasedRow(db);
    ReleasedBalance(next);
  }

  lemma ReleasedBalance(db: Db)
    requires Reachable(db) && Untouched(db) && |db.invoices| == 1 && |db.payments| == 1
    requires db.payments[0].merchant == 0 && db.payments[0].invoice == 0 && db.payments[0].status == PAYMENT_RELEASED
    requires db.invoices[0].fees.merchantNet == 1
    ensures Balance(db.journals, Merchant(0), AVAILABLE) == 1
  {
    MerchantBucketsMatchRows(db, 0);
    assert db.payments == [db.payments[0]];
    Sum1(db.payments[0], ReleasedNet(db.invoices, 0));
  }

  lemma ReleasedRow(db: Db)
    requires Credited1(db) && ReleasePayment(db, 0, 0, true).result == Ok(Some(1))
    ensures var next := ReleasePayment(db, 0, 0, true).db;
            && Untouched(next) && next.invoices == db.invoices && |next.payments| == 1
            && next.payments[0] == db.payments[0].(status := PAYMENT_RELEASED)
  {
  }

  ghost predicate Row(db: Db, gram: Option<int>, status: PayoutStatus) {
    && Reachable(db) && db.safety == 0 && |db.payouts| == 1
    && db.payouts[0].amount == 1 && db.payouts[0].gram == gram && db.payouts[0].status == status
    && db.payouts[0].destination == WALLET.address && db.payouts[0].network == WALLET.network && db.payouts[0].txHash.None?
  }

  ghost predicate Unfunded(db: Db) { db.reservations == [] && db.treasuryTxs == [] && db.confirmed == 0 }

  lemma PayoutIsQueued(db: Db)
    requires Released(db)
    ensures var next := Apply(db, OpQueuePayout(PAYABLE)); Row(next, None, QUEUED) && Unfunded(next)
  {
    ReachableApply(db, OpQueuePayout(PAYABLE));
    QueuesExactlyWhenPayable(db, PAYABLE);
    PayableIsInserted(db, PAYABLE);
  }

  lemma OneGram(r: Rate)
    requires r.scaled == Pow10(r.scale)
    ensures NanoGram(1, r, FLOOR) == NANO
  {
    var n := NANO * r.scaled;
    assert Unit(r) == n;
    RoundedIsRounding(n, r.scaled, FLOOR);
    RoundingIsUnique(n, r.scaled, FLOOR, Rounded(n, r.scaled, FLOOR), NANO);
  }

  lemma ParIsQuotable() returns (quote: string)
    ensures exists rate :: RateOf(quote, "s") == Ok(rate) && NanoGram(1, rate, FLOOR) == NANO && rate.scaled < RATE_LIMIT
  {
    var par: Rate := RateSnapshot(Pow10(18), 18, "s");
    assert Pow10(9) == 1_000_000_000;
    assert Pow10(18) == 1_000_000_000_000_000_000;
    quote := RateToDbString(par);
    RateSurvivesDatabase(par);
    OneGram(par);
  }

  lemma RateIsLocked(db: Db, quote: string, rate: Rate)
    requires Row(db, None, QUEUED) && Unfunded(db)
    requires RateOf(quote, "s") == Ok(rate) && NanoGram(1, rate, FLOOR) == NANO && rate.scaled < RATE_LIMIT
    ensures var next := Apply(db, OpLockRate(0, quote, "s", false, 0)); Row(next, Some(NANO), RATE_LOCKED) && Unfunded(next)
  {
    LockedApply(db, quote, rate);
    ReachableApply(db, OpLockRate(0, quote, "s", false, 0));
    LockedIsRow(db, Apply(db, OpLockRate(0, quote, "s", false, 0)));
  }

  lemma LockedIsRow(db: Db, next: Db)
    requires Row(db, None, QUEUED) && Unfunded(db) && Reachable(next)
    requires next == db.(payouts := db.payouts[0 := db.payouts[0].(gram := Some(NANO), status := RATE_LOCKED, updatedAt := 0)])
    ensures Row(next, Some(NANO), RATE_LOCKED) && Unfunded(next)
  {
  }

  lemma LockedApply(db: Db, quote: string, rate: Rate)
    requires |db.payouts| == 1 && db.payouts[0].status == QUEUED && db.payouts[0].amount == 1
    requires RateOf(quote, "s") == Ok(rate) && NanoGram(1, rate, FLOOR) == NANO && rate.scaled < RATE_LIMIT
    ensures Apply(db, OpLockRate(0, quote, "s", false, 0))
         == db.(payouts := db.payouts[0 := db.payouts[0].(gram := Some(NANO), status := RATE_LOCKED, updatedAt := 0)])
  {
    LockedRow(db, quote, rate);
  }

  lemma LockedRow(db: Db, quote: string, rate: Rate)
    requires |db.payouts| == 1 && db.payouts[0].status == QUEUED && db.payouts[0].amount == 1
    requires RateOf(quote, "s") == Ok(rate) && NanoGram(1, rate, FLOOR) == NANO && rate.scaled < RATE_LIMIT
    ensures LockRate(db, 0, quote, "s", false, 0).db
         == db.(payouts := db.payouts[0 := db.payouts[0].(gram := Some(NANO), status := RATE_LOCKED, updatedAt := 0)])
  {
  }

  lemma TreasuryIsFunded(db: Db)
    requires Row(db, Some(NANO), RATE_LOCKED) && Unfunded(db)
    ensures var next := Apply(db, OpFundTreasury(NANO, "f"));
            Row(next, Some(NANO), RATE_LOCKED) && next.reservations == [] && next.confirmed == NANO
  {
    ReachableApply(db, OpFundTreasury(NANO, "f"));
    FundsExactlyWhenNew(db, NANO, "f");
    FundedRow(db);
  }

  lemma FundedRow(db: Db)
    requires FundTreasury(db, NANO, "f").result == Ok(true)
    ensures var next := FundTreasury(db, NANO, "f").db;
            && next.payouts == db.payouts && next.reservations == db.reservations && next.safety == db.safety
            && next.confirmed == db.confirmed + NANO
  {
  }

  ghost predicate Held(db: Db) {
    db.reservations == [Reservation(0, NANO, ACTIVE, 60)]
  }

  lemma LiquidityIsReserved(db: Db)
    requires Row(db, Some(NANO), RATE_LOCKED) && db.reservations == [] && db.confirmed == NANO
    ensures var next := Apply(db, OpReserveLiquidity(0, 0, 60)); Row(next, Some(NANO), RESERVED) && Held(next)
  {
    ReachableApply(db, OpReserveLiquidity(0, 0, 60));
    assert ReserveLiquidity(db, 0, 0, 60).db.reservations == [Reservation(0, NANO, ACTIVE, 60)];
  }

  lemma PayoutIsSigned(db: Db)
    requires Row(db, Some(NANO), RESERVED) && Held(db)
    ensures var next := Apply(db, OpRecordSignature(0, "s", 0)); Row(next, Some(NANO), SIGNED) && Held(next)
  {
    ReachableApply(db, OpRecordSignature(0, "s", 0));
  }

  lemma SendIsPrepared(db: Db)
    requires Row(db, Some(NANO), SIGNED) && Held(db)
    ensures PrepareBroadcast(db, 0, 0, true, Some(WALLET)).result == Ok(Send(NANO, WALLET.address, WALLET.network))
  {
    assert FindActive(db.reservations, 0, 0).Some?;
  }

  /** A send can be prepared after some run: the statements about sends speak of something. */
  lemma SomeSendIsPrepared()
    ensures exists db :: Reachable(db)
              && PrepareBroadcast(db, 0, 0, true, Some(WALLET)).result == Ok(Send(NANO, WALLET.address, WALLET.network))
  {
    InvoiceIsCreated();
    var invoiced := Apply(EmptyDb(0), OpCreateInvoice(REQUEST));
    PaymentIsCredited(invoiced);
    var credited := Apply(invoiced, OpFinalizePayment(0, EVIDENCE, 0, 0));
    PaymentIsReleased(credited);
    var released := Apply(credited, OpReleasePayment(0, 0, true));
    PayoutIsQueued(released);
    var queued := Apply(released, OpQueuePayout(PAYABLE));
    var quote := ParIsQuotable();
    var rate :| RateOf(quote, "s") == Ok(rate) && NanoGram(1, rate, FLOOR) == NANO && rate.scaled < RATE_LIMIT;
    RateIsLocked(queued, quote, rate);
    var locked := Apply(queued, OpLockRate(0, quote, "s", false, 0));
    TreasuryIsFunded(locked);
    var funded := Apply(locked, OpFundTreasury(NANO, "f"));
    LiquidityIsReserved(funded);
    var reserved := Apply(funded, OpReserveLiquidity(0, 0, 60));
    PayoutIsSigned(reserved);
    SendIsPrepared(Apply(reserved, OpRecordSignature(0, "s", 0)));
  }
}
