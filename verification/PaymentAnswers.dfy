/**
 What each invoice and payment transaction answers and stores, said of the rows themselves, and what that means for the
 runs that follow: no credited payment is released before its hold is over.
 */
module PaymentAnswers {
  import opened Basics
  import opened MoneyMath
  import opened Sums
  import opened Ledger
  import opened Fees
  import opened Pipeline
  import opened PipelineInvariants
  import opened PipelineTheorems
  import P = PaymentSteps

  // ---------------------------------------------------------------------------
  // Invoices
  // ---------------------------------------------------------------------------

  /** The fee is cut to whole Toman and falls on the customer, the merchant or both; an odd Toman falls on the merchant. */
  ghost predicate Snapshot(f: FeeBreakdown, base: int, mode: FeeMode, rateBps: nat) {
    && f.baseAmount == base
    && f.customerTotal == base + f.customerFeeShare && f.merchantNet == base - f.merchantFeeShare
    && f.platformFee == f.customerFeeShare + f.merchantFeeShare
    && 10_000 * f.platformFee <= base * rateBps < 10_000 * f.platformFee + 10_000
    && match mode
       case CUSTOMER => f.merchantFeeShare == 0
       case MERCHANT => f.customerFeeShare == 0
       case SPLIT => 0 <= f.merchantFeeShare - f.customerFeeShare <= 1
  }

  /** Every base has one snapshot, whether or not the merchant can bear its share. */
  lemma OneSnapshot(base: int, mode: FeeMode, rateBps: nat)
    requires base > 0
    ensures exists f :: Snapshot(f, base, mode, rateBps)
    ensures forall f, g :: Snapshot(f, base, mode, rateBps) && Snapshot(g, base, mode, rateBps) ==> f == g
  {
    var fee := Rounded(base * rateBps, 10_000, FLOOR);
    RoundedIsRounding(base * rateBps, 10_000, FLOOR);
    var half := Rounded(fee, 2, FLOOR);
    RoundedIsRounding(fee, 2, FLOOR);
    var customer := match mode case CUSTOMER => fee case MERCHANT => 0 case SPLIT => half;
    assert Snapshot(FeeBreakdown(base, base + customer, fee, customer, fee - customer, base - (fee - customer)), base, mode, rateBps);
  }

  /** An invoice is stored with its snapshot, open until the expiry the caller asked for. */
  lemma InvoiceAnswers(db: Db, q: InvoiceRequest, f: FeeBreakdown)
    ensures var s := CreateInvoice(db, q);
            if q.base <= 0 then s == Step(db, Err(AmountNotPositive))
            else if q.base > 10_000_000_000_000_000_000_000_000_000 then s == Step(db, Err(AmountTooLarge))
            else if !(60 <= q.expiresIn <= 2_592_000) then s == Step(db, Err(InvalidExpiry))
            else if !q.merchantActive then s == Step(db, Err(MerchantNotActive))
            else Snapshot(f, q.base, q.mode, q.rateBps) ==>
              s == if f.merchantNet < 0 then Step(db, Err(FeeRefused(FeeExceedsBase)))
                   else Step(db.(invoices := db.invoices + [Invoice(q.merchant, f, INVOICE_CREATED, q.now + q.expiresIn,
                                                                    q.payToman, q.payRial)]),
                             Ok(|db.invoices|))
  {
    if q.base > 0 && Snapshot(f, q.base, q.mode, q.rateBps) {
      RoundedIsRounding(q.base * q.rateBps, 10_000, FLOOR);
      assert Rounded(q.base * q.rateBps, 10_000, FLOOR) == f.platformFee;
      RoundedIsRounding(f.platformFee, 2, FLOOR);
    }
  }

  /** A payment never stands in the way of cancelling: an open invoice has none that is verified. */
  lemma CancelAnswers(db: Db, merchant: nat, id: nat)
    requires Reachable(db)
    ensures var s := CancelInvoice(db, merchant, id);
            if id >= |db.invoices| || db.invoices[id].merchant != merchant then s == Step(db, Err(NotFound))
            else match db.invoices[id].status
                 case CANCELLED => s == Step(db, Ok(true))
                 case INVOICE_CREATED =>
                   s == Step(db.(invoices := db.invoices[id := db.invoices[id].(status := CANCELLED)]), Ok(false))
                 case _ => s == Step(db, Err(InvoiceNotCancellable))
  {
    if id < |db.invoices| {
      InvoicesPaidOnce(db, id);
    }
  }

  /** Exactly the open invoices past their expiry expire. */
  lemma InvoiceExpiryAnswers(db: Db, now: int)
    ensures var next := ExpireInvoices(db, now).db;
            && next == db.(invoices := next.invoices) && |next.invoices| == |db.invoices|
            && forall k :: 0 <= k < |db.invoices| ==>
                 next.invoices[k] == if db.invoices[k].status == INVOICE_CREATED && now > db.invoices[k].expiresAt
                                     then db.invoices[k].(status := INVOICE_EXPIRED) else db.invoices[k]
  {
  }

  // ---------------------------------------------------------------------------
  // Finalize
  // ---------------------------------------------------------------------------

  predicate Seen(db: Db, ev: Evidence) {
    exists k :: 0 <= k < |db.payments| && db.payments[k].provider == ev.provider && db.payments[k].externalId == ev.externalId
  }

  /** A row that holds no value: no release date, no hold. A mismatch stores the amount, so it must not be negative. */
  function WithoutCredit(db: Db, inv: nat, ev: Evidence, status: PaymentStatus): Step<FinalizeResult>
    requires inv < |db.invoices|
  {
    if status == MISMATCH && ev.paid < 0 then Step(db, Err(NegativePaidAmount))
    else Step(db.(payments := db.payments + [Payment(inv, db.invoices[inv].merchant, ev.provider, ev.externalId, status, None, false)]),
              Ok(FinalizeResult(|db.payments|, status, false)))
  }

  /** What the customer owes, and the Rial amount where one is on record. */
  predicate PaidInFull(i: Invoice, ev: Evidence) {
    && ev.paid == (match i.payToman case Some(x) => x case None => i.fees.customerTotal)
    && (i.payRial.Some? && ev.rawRial != NotReported ==> ev.rawRial == Rial(i.payRial.value))
  }

  /** A payment the provider reported before is answered from its row; evidence is judged in this order. */
  lemma FinalizeAnswers(db: Db, inv: nat, ev: Evidence, holdTime: int, providerBps: nat)
    ensures var s := FinalizePayment(db, inv, ev, holdTime, providerBps);
            if ev.externalId == "" then s == Step(db, Err(MissingExternalId))
            else if inv >= |db.invoices| then s == Step(db, Err(NotFound))
            else if Seen(db, ev) then
              && s.db == db && s.result.Ok? && !s.result.value.credited
              && var k := s.result.value.payment;
                 k < |db.payments| && db.payments[k].provider == ev.provider && db.payments[k].externalId == ev.externalId
                 && s.result.value.status == db.payments[k].status
            else if ev.orderId.Some? && ev.orderId != Some(inv) then s == Step(db, Err(OrderIdMismatch))
            else match ev.status
                 case PROVIDER_FAILED => s == WithoutCredit(db, inv, ev, PAYMENT_FAILED)
                 case PROVIDER_PENDING | PROVIDER_UNKNOWN => s == WithoutCredit(db, inv, ev, PAYMENT_UNKNOWN)
                 case PROVIDER_PAID =>
                   if !PaidInFull(db.invoices[inv], ev) then s == WithoutCredit(db, inv, ev, MISMATCH)
                   else if db.invoices[inv].status != INVOICE_CREATED then s == Step(db, Err(InvoiceNotPayable))
                   else if ev.paidAt.None? then s == Step(db, Err(InvalidPaidAt))
                   else if ev.paidAt.value > db.invoices[inv].expiresAt then s == WithoutCredit(db, inv, ev, MISMATCH)
                   else s.db == db || s.result == Ok(FinalizeResult(|db.payments|, VERIFIED, true))
  {
    var found := FindPayment(db.payments, ev.provider, ev.externalId);
    if found.Some? {
      assert Seen(db, ev);
    }
  }

  /** The provider's cut: what it reported, or the rate on what the customer paid rounded up. */
  ghost predicate ProviderFee(booked: int, total: int, reported: Option<nat>, providerBps: nat) {
    match reported
    case Some(x) => booked == x
    case None => 10_000 * booked - 10_000 < total * providerBps <= 10_000 * booked
  }

  /** Clearing holds what was paid less the provider's cut; the merchant waits for its net, the platform earns its fee. */
  function CreditMove(i: Invoice, booked: int, a: AccountId, b: Bucket): int {
    if a == Merchant(i.merchant) then (if b == PENDING then i.fees.merchantNet else 0)
    else if b != AVAILABLE then 0
    else match a
         case System(ProviderClearingToman) => i.fees.customerTotal - booked
         case System(PlatformRevenueToman) => i.fees.platformFee
         case System(PlatformExpenseToman) => booked
         case _ => 0
  }

  /** What a credit leaves: the payment with its release date, the invoice PAID, one journal and the money moved. */
  ghost predicate CreditedAs(db: Db, next: Db, inv: nat, ev: Evidence, holdTime: int, providerBps: nat) {
    && inv < |db.invoices| && ev.paidAt.Some?
    && var i := db.invoices[inv];
       && next == db.(journals := next.journals,
                      payments := db.payments + [Payment(inv, i.merchant, ev.provider, ev.externalId, VERIFIED,
                                                         Some(ev.paidAt.value + holdTime), ev.risky)],
                      invoices := db.invoices[inv := i.(status := PAID)])
       && Booked(db, next, PaymentRef(|db.payments|), PaymentVerified(ev.provider, ev.externalId))
       && forall booked :: ProviderFee(booked, i.fees.customerTotal, ev.reportedFee, providerBps) ==>
            forall a, b :: Moved(db, next, a, b) == CreditMove(i, booked, a, b)
  }

  lemma CreditStores(db: Db, inv: nat, ev: Evidence, holdTime: int, providerBps: nat)
    requires Reachable(db)
    requires var r := FinalizePayment(db, inv, ev, holdTime, providerBps).result; r.Ok? && r.value.credited
    ensures CreditedAs(db, FinalizePayment(db, inv, ev, holdTime, providerBps).db, inv, ev, holdTime, providerBps)
    ensures FinalizePayment(db, inv, ev, holdTime, providerBps).result == Ok(FinalizeResult(|db.payments|, VERIFIED, true))
    ensures exists booked :: ProviderFee(booked, db.invoices[inv].fees.customerTotal, ev.reportedFee, providerBps)
  {
    ReachableHolds(db);
    CreditsExactlyWhenMatched(db, inv, ev, holdTime, providerBps);
    MatchedIsCreditPayment(db, inv, ev, holdTime, providerBps);
    assert InvoiceSane(db.invoices[inv]);
    CreditPaymentStores(db, inv, ev, holdTime, providerBps);
  }

  lemma CreditPaymentStores(db: Db, inv: nat, ev: Evidence, holdTime: int, providerBps: nat)
    requires inv < |db.invoices| && ev.paidAt.Some? && InvoiceSane(db.invoices[inv])
    requires CreditPayment(db, inv, ev, holdTime, providerBps).result.Ok?
    ensures CreditedAs(db, CreditPayment(db, inv, ev, holdTime, providerBps).db, inv, ev, holdTime, providerBps)
    ensures CreditPayment(db, inv, ev, holdTime, providerBps).result == Ok(FinalizeResult(|db.payments|, VERIFIED, true))
    ensures exists booked :: ProviderFee(booked, db.invoices[inv].fees.customerTotal, ev.reportedFee, providerBps)
  {
    var booked := CreditPaymentShape(db, inv, ev, holdTime, providerBps);
    PostCreditShape(db, inv, ev, ev.paidAt.value + holdTime, booked);
    CreditedFrom(db, CreditPayment(db, inv, ev, holdTime, providerBps).db, inv, ev, holdTime, providerBps, booked);
  }

  lemma CreditPaymentShape(db: Db, inv: nat, ev: Evidence, holdTime: int, providerBps: nat) returns (booked: nat)
    requires inv < |db.invoices| && ev.paidAt.Some? && InvoiceSane(db.invoices[inv])
    requires CreditPayment(db, inv, ev, holdTime, providerBps).result.Ok?
    ensures ProviderFee(booked, db.invoices[inv].fees.customerTotal, ev.reportedFee, providerBps)
    ensures CreditPayment(db, inv, ev, holdTime, providerBps) == PostCredit(db, inv, ev, ev.paidAt.value + holdTime, booked)
  {
    var total := db.invoices[inv].fees.customerTotal;
    RoundedIsRounding(total * providerBps, 10_000, CEIL);
    NonNegativeRounds(total, providerBps, CEIL);
    booked := if ev.reportedFee.Some? then ev.reportedFee.value else Rounded(total * providerBps, 10_000, CEIL);
  }

  lemma CreditedFrom(db: Db, next: Db, inv: nat, ev: Evidence, holdTime: int, providerBps: nat, booked: nat)
    requires inv < |db.invoices| && ev.paidAt.Some? && InvoiceSane(db.invoices[inv])
    requires ProviderFee(booked, db.invoices[inv].fees.customerTotal, ev.reportedFee, providerBps)
    requires var r := Posting(db.journals, CreditDraft(db, inv, ev, booked)).result; r.Posted? && r.created
    requires var i := db.invoices[inv];
             next == db.(journals := Posting(db.journals, CreditDraft(db, inv, ev, booked)).journals,
                         payments := db.payments + [Payment(inv, i.merchant, ev.provider, ev.externalId, VERIFIED,
                                                            Some(ev.paidAt.value + holdTime), ev.risky)],
                         invoices := db.invoices[inv := i.(status := PAID)])
    ensures CreditedAs(db, next, inv, ev, holdTime, providerBps)
  {
    CreditMoves(db.journals, CreditDraft(db, inv, ev, booked), db.invoices[inv], booked);
    forall other | ProviderFee(other, db.invoices[inv].fees.customerTotal, ev.reportedFee, providerBps)
      ensures other == booked
    {
    }
  }

  lemma PostCreditShape(db: Db, inv: nat, ev: Evidence, releaseAt: int, booked: int)
    requires inv < |db.invoices| && PostCredit(db, inv, ev, releaseAt, booked).result.Ok?
    ensures var i := db.invoices[inv];
            var posting := Posting(db.journals, CreditDraft(db, inv, ev, booked));
            && posting.result.Posted? && posting.result.created
            && PostCredit(db, inv, ev, releaseAt, booked)
               == Step(db.(journals := posting.journals,
                           payments := db.payments + [Payment(inv, i.merchant, ev.provider, ev.externalId, VERIFIED,
                                                              Some(releaseAt), ev.risky)],
                           invoices := db.invoices[inv := i.(status := PAID)]),
                       Ok(FinalizeResult(|db.payments|, VERIFIED, true)))
  {
  }

  lemma CreditMoves(js: seq<Journal>, d: JournalDraft, i: Invoice, booked: int)
    requires InvoiceSane(i) && booked >= 0 && d.lines == CreditLines(i, booked)
    requires Posting(js, d).result.Posted? && Posting(js, d).result.created
    ensures var after := Posting(js, d).journals;
            && |after| == |js| + 1 && after[..|js|] == js
            && after[|js|].reference == d.reference && Some(after[|js|].operationId) == d.operationId
            && forall a, b :: Balance(after, a, b) - Balance(js, a, b) == CreditMove(i, booked, a, b)
  {
    PostedMoves(js, d);
    forall a, b ensures Sum(CreditLines(i, booked), LineMoves(a, b)) == CreditMove(i, booked, a, b) {
      CreditSums(i, booked, LineMoves(a, b));
    }
  }

  // ---------------------------------------------------------------------------
  // Release
  // ---------------------------------------------------------------------------

  /** What a release leaves: the row RELEASED, one journal, and the merchant's net moved from PENDING to AVAILABLE. */
  ghost predicate ReleasedAs(db: Db, next: Db, id: nat, amount: int) {
    && id < |db.payments|
    && next == db.(journals := next.journals, payments := db.payments[id := db.payments[id].(status := PAYMENT_RELEASED)])
    && Booked(db, next, PaymentRef(id), PaymentReleased(id))
    && forall a, b :: Moved(db, next, a, b) ==
         if a != Merchant(db.payments[id].merchant) then 0 else match b case PENDING => -amount case AVAILABLE => amount case _ => 0
  }

  lemma ReleaseStores(db: Db, id: nat, now: int, merchantActive: bool)
    requires Reachable(db)
    ensures var s := ReleasePayment(db, id, now, merchantActive);
            match s.result
            case Ok(Some(amount)) =>
              && ReleasedAs(db, s.db, id, amount)
              && db.payments[id].invoice < |db.invoices| && amount == db.invoices[db.payments[id].invoice].fees.merchantNet > 0
            case _ => s.db == db
  {
    ReleaseShape(db, id, now, merchantActive);
    if ReleasePayment(db, id, now, merchantActive).db != db {
      ReachableHolds(db);
      PendingCovers(db, id);
      ReleaseMoves(db.journals, db.payments[id].merchant, id, PendingAmount(db.journals, id));
    }
  }

  lemma ReleaseShape(db: Db, id: nat, now: int, merchantActive: bool)
    ensures var s := ReleasePayment(db, id, now, merchantActive);
            match s.result
            case Ok(Some(amount)) =>
              && s.db != db && amount == PendingAmount(db.journals, id)
              && id < |db.payments| && db.payments[id].status == VERIFIED
              && var posting := Posting(db.journals, P.ReleaseDraft(db.payments[id], id, amount));
                 && posting.result.Posted? && posting.result.created
                 && s.db == db.(journals := posting.journals,
                                payments := db.payments[id := db.payments[id].(status := PAYMENT_RELEASED)])
            case _ => s.db == db
  {
    var s := ReleasePayment(db, id, now, merchantActive);
    if s.result.Ok? && s.result.value.Some? {
      assert s.db.payments[id] != db.payments[id];
    }
  }

  lemma ReleaseMoves(js: seq<Journal>, merchant: nat, id: nat, amount: int)
    requires var r := Posting(js, JournalDraft(PaymentRef(id), Some(PaymentReleased(id)), ReleaseLines(merchant, amount))).result;
             r.Posted? && r.created
    ensures var after := Posting(js, JournalDraft(PaymentRef(id), Some(PaymentReleased(id)), ReleaseLines(merchant, amount))).journals;
            && |after| == |js| + 1 && after[..|js|] == js
            && after[|js|].reference == PaymentRef(id) && after[|js|].operationId == PaymentReleased(id)
            && forall a, b :: Balance(after, a, b) - Balance(js, a, b) ==
                 if a != Merchant(merchant) then 0 else match b case PENDING => -amount case AVAILABLE => amount case _ => 0
  {
    PostedMoves(js, JournalDraft(PaymentRef(id), Some(PaymentReleased(id)), ReleaseLines(merchant, amount)));
    var ls := ReleaseLines(merchant, amount);
    forall a, b ensures Sum(ls, LineMoves(a, b)) ==
      if a != Merchant(merchant) then 0 else match b case PENDING => -amount case AVAILABLE => amount case _ => 0
    {
      Sum2(ls[0], ls[1], LineMoves(a, b));
    }
  }

  // ---------------------------------------------------------------------------
  // No release before the hold is over
  // ---------------------------------------------------------------------------

  /** This transaction may release the payment: it is asked to, the merchant is active and the date has come. */
  predicate MayRelease(op: Operation, id: nat, releaseAt: Option<int>) {
    op.OpReleasePayment? && op.id == id && op.merchantActive && releaseAt.Some? && releaseAt.value <= op.now
  }

  lemma OnlyReleaseReleases(db: Db, op: Operation, id: nat)
    requires id < |db.payments| && db.payments[id].status != PAYMENT_RELEASED
    ensures id < |Apply(db, op).payments|
    ensures Apply(db, op).payments[id].status == PAYMENT_RELEASED ==> MayRelease(op, id, db.payments[id].releaseAt)
  {
    match op
    case OpReleasePayment(k, now, active) =>
      ReleaseShape(db, k, now, active);
    case OpFinalizePayment(inv, ev, hold, bps) =>
      FinalizeReleasesNone(db, inv, ev, hold, bps, id);
    case OpSetHold(_, _) =>
    case _ =>
      OtherPaymentsStay(db, op);
  }

  lemma FinalizeReleasesNone(db: Db, inv: nat, ev: Evidence, hold: int, bps: nat, id: nat)
    requires id < |db.payments|
    ensures var next := FinalizePayment(db, inv, ev, hold, bps).db; id < |next.payments| && next.payments[id] == db.payments[id]
  {
    P.FinalizeCases(db, inv, ev, hold, bps);
  }

  lemma OtherPaymentsStay(db: Db, op: Operation)
    requires !op.OpReleasePayment? && !op.OpFinalizePayment? && !op.OpSetHold?
    ensures Apply(db, op).payments == db.payments
  {
  }

  /**
   However a run goes on, a payment keeps its release date, and it is RELEASED in the end only if one of the run's
   transactions released it at or after that date.
   */
  lemma {:induction false} ReleasedInTime(db: Db, ops: seq<Operation>, id: nat)
    requires id < |db.payments| && db.payments[id].status != PAYMENT_RELEASED
    ensures id < |Run(db, ops).payments|
    ensures Run(db, ops).payments[id].releaseAt == db.payments[id].releaseAt
    ensures Run(db, ops).payments[id].status == PAYMENT_RELEASED ==>
              exists i :: 0 <= i < |ops| && MayRelease(ops[i], id, db.payments[id].releaseAt)
  {
    RunIsFinal(db, ops);
    if ops != [] {
      var init := ops[..|ops| - 1];
      ReleasedInTime(db, init, id);
      if Run(db, init).payments[id].status == PAYMENT_RELEASED {
        var i :| 0 <= i < |init| && MayRelease(init[i], id, db.payments[id].releaseAt);
        assert MayRelease(ops[i], id, db.payments[id].releaseAt);
      } else {
        OnlyReleaseReleases(Run(db, init), ops[|ops| - 1], id);
      }
    }
  }

  /** No credited payment is released, by any run that follows, before the hold counted from its payment is over. */
  lemma HoldsAreKept(db: Db, inv: nat, ev: Evidence, holdTime: int, providerBps: nat, ops: seq<Operation>)
    requires Reachable(db)
    requires var r := FinalizePayment(db, inv, ev, holdTime, providerBps).result; r.Ok? && r.value.credited
    ensures ev.paidAt.Some?
    ensures var id := |db.payments|;
            var later := Run(FinalizePayment(db, inv, ev, holdTime, providerBps).db, ops);
            && id < |later.payments| && Credited(later.payments[id])
            && later.payments[id].releaseAt == Some(ev.paidAt.value + holdTime)
            && (later.payments[id].status == PAYMENT_RELEASED ==>
                  exists i :: 0 <= i < |ops| && MayRelease(ops[i], id, Some(ev.paidAt.value + holdTime)))
  {
    CreditStores(db, inv, ev, holdTime, providerBps);
    var next := FinalizePayment(db, inv, ev, holdTime, providerBps).db;
    RunIsFinal(next, ops);
    ReleasedInTime(next, ops, |db.payments|);
  }
}
