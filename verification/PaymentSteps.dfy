/** Invoice and payment transactions keep the pipeline invariant. */
module PaymentSteps {
  import opened Basics
  import opened MoneyMath
  import opened Sums
  import opened Ledger
  import opened Fees
  import opened Pipeline
  import opened PipelineInvariants

  // ---------------------------------------------------------------------------
  // Steps that only touch invoices
  // ---------------------------------------------------------------------------

  /** Rows added or rewritten without touching merchant, fees or the PAID mark. */
  ghost predicate SameMoney(before: seq<Invoice>, after: seq<Invoice>) {
    && |before| <= |after|
    && (forall i :: 0 <= i < |before| ==>
          after[i].merchant == before[i].merchant && after[i].fees == before[i].fees
          && (after[i].status == PAID <==> before[i].status == PAID))
    && (forall i :: |before| <= i < |after| ==> after[i].status != PAID && InvoiceSane(after[i]))
  }

  lemma NetsUnchanged(payments: seq<Payment>, before: seq<Invoice>, after: seq<Invoice>, m: nat)
    requires SameMoney(before, after) && Linked(before, payments)
    ensures Sum(payments, VerifiedNet(after, m)) == Sum(payments, VerifiedNet(before, m))
    ensures Sum(payments, ReleasedNet(after, m)) == Sum(payments, ReleasedNet(before, m))
  {
    SumSame(payments, VerifiedNet(after, m), VerifiedNet(before, m));
    SumSame(payments, ReleasedNet(after, m), ReleasedNet(before, m));
  }

  lemma InvoicesKeep(db: Db, invoices: seq<Invoice>)
    requires Inv(db) && SameMoney(db.invoices, invoices)
    ensures Inv(db.(invoices := invoices))
  {
    forall m ensures MerchantBook(db.journals, invoices, db.payments, db.payouts, m) {
      assert MerchantBook(db.journals, db.invoices, db.payments, db.payouts, m);
      NetsUnchanged(db.payments, db.invoices, invoices, m);
    }
    forall i | 0 <= i < |invoices| ensures InvoiceSane(invoices[i]) {
      assert i < |db.invoices| ==> InvoiceSane(db.invoices[i]);
    }
    assert PendingHeld(db.journals, invoices, db.payments);
    assert PaidOnce(invoices, db.payments);
  }

  lemma CreateInvoiceKeeps(db: Db, q: InvoiceRequest)
    requires Inv(db)
    ensures Inv(CreateInvoice(db, q).db)
  {
    if CreateInvoice(db, q).result.Ok? {
      FeesConserveValue(q.base, q.mode, q.rateBps, FLOOR);
      InvoicesKeep(db, CreateInvoice(db, q).db.invoices);
    }
  }

  lemma CancelInvoiceKeeps(db: Db, merchant: nat, id: nat)
    requires Inv(db)
    ensures Inv(CancelInvoice(db, merchant, id).db)
  {
    InvoicesKeep(db, CancelInvoice(db, merchant, id).db.invoices);
  }

  lemma ExpireInvoicesKeeps(db: Db, now: int)
    requires Inv(db)
    ensures Inv(ExpireInvoices(db, now).db)
  {
    InvoicesKeep(db, ExpireInvoices(db, now).db.invoices);
  }

  // ---------------------------------------------------------------------------
  // Operation marks survive row growth
  // ---------------------------------------------------------------------------

  lemma FindPaymentStays(before: seq<Payment>, after: seq<Payment>, provider: string, externalId: string)
    requires |before| <= |after|
    requires forall i :: 0 <= i < |before| ==> after[i].provider == before[i].provider && after[i].externalId == before[i].externalId
    ensures FindPayment(before, provider, externalId).Some? ==> FindPayment(after, provider, externalId).Some?
  {
  }

  /** Payments keep identity and RELEASED marks. */
  ghost predicate PaymentsGrow(before: seq<Payment>, after: seq<Payment>) {
    && |before| <= |after|
    && (forall i :: 0 <= i < |before| ==>
          after[i].provider == before[i].provider && after[i].externalId == before[i].externalId
          && (before[i].status == PAYMENT_RELEASED ==> after[i].status == PAYMENT_RELEASED))
  }

  lemma MarksStay(js: seq<Journal>, before: seq<Payment>, after: seq<Payment>, payouts: seq<Payout>, txs: seq<TreasuryTx>)
    requires OperationsDone(js, before, payouts, txs) && PaymentsGrow(before, after)
    ensures OperationsDone(js, after, payouts, txs)
  {
    forall j | j in js ensures OperationDone(j, after, payouts, txs) {
      assert OperationDone(j, before, payouts, txs);
      if j.operationId.PaymentVerified? {
        FindPaymentStays(before, after, j.operationId.provider, j.operationId.externalId);
      }
    }
  }

  // ---------------------------------------------------------------------------
  // Finalize
  // ---------------------------------------------------------------------------

  lemma AppendNets(payments: seq<Payment>, p: Payment, invoices: seq<Invoice>, m: nat)
    ensures Sum(payments + [p], VerifiedNet(invoices, m)) == Sum(payments, VerifiedNet(invoices, m)) + VerifiedNet(invoices, m)(p)
    ensures Sum(payments + [p], ReleasedNet(invoices, m)) == Sum(payments, ReleasedNet(invoices, m)) + ReleasedNet(invoices, m)(p)
  {
    SumAppend(payments, p, VerifiedNet(invoices, m));
    SumAppend(payments, p, ReleasedNet(invoices, m));
  }

  lemma UncreditedKeeps(db: Db, inv: nat, ev: Evidence, status: PaymentStatus)
    requires Inv(db) && inv < |db.invoices| && FindPayment(db.payments, ev.provider, ev.externalId).None?
    requires status == PAYMENT_FAILED || status == PAYMENT_UNKNOWN || status == MISMATCH
    ensures Inv(Uncredited(db, inv, ev, status).db)
  {
    var p := NewPayment(inv, db.invoices[inv], ev, status, None);
    MarksStay(db.journals, db.payments, db.payments + [p], db.payouts, db.treasuryTxs);
    UncreditedBooks(db, p);
    UncreditedPaidOnce(db.invoices, db.payments, p);
    UncreditedRows(db.journals, db.invoices, db.payments, p);
  }

  lemma UncreditedRows(js: seq<Journal>, invoices: seq<Invoice>, payments: seq<Payment>, p: Payment)
    requires Linked(invoices, payments) && NetsPositive(invoices, payments) && PendingHeld(js, invoices, payments)
    requires p.invoice < |invoices| && p.merchant == invoices[p.invoice].merchant && !Credited(p)
    requires FindPayment(payments, p.provider, p.externalId).None?
    ensures Linked(invoices, payments + [p]) && NetsPositive(invoices, payments + [p]) && PendingHeld(js, invoices, payments + [p])
  {
  }

  lemma UncreditedBooks(db: Db, p: Payment)
    requires MerchantBooks(db.journals, db.invoices, db.payments, db.payouts) && !Credited(p)
    ensures MerchantBooks(db.journals, db.invoices, db.payments + [p], db.payouts)
  {
    forall m ensures MerchantBook(db.journals, db.invoices, db.payments + [p], db.payouts, m) {
      assert MerchantBook(db.journals, db.invoices, db.payments, db.payouts, m);
      AppendNets(db.payments, p, db.invoices, m);
    }
  }

  lemma UncreditedPaidOnce(invoices: seq<Invoice>, payments: seq<Payment>, p: Payment)
    requires PaidOnce(invoices, payments) && !Credited(p)
    ensures PaidOnce(invoices, payments + [p])
  {
    var after := payments + [p];
    forall i | 0 <= i < |invoices|
      ensures invoices[i].status == PAID <==> exists k :: 0 <= k < |after| && after[k].invoice == i && Credited(after[k])
    {
      if invoices[i].status == PAID {
        var k :| 0 <= k < |payments| && payments[k].invoice == i && Credited(payments[k]);
        assert after[k] == payments[k];
      }
    }
  }

  lemma PostCreditKeeps(db: Db, inv: nat, ev: Evidence, releaseAt: int, booked: int)
    requires Inv(db) && inv < |db.invoices|
    requires FindPayment(db.payments, ev.provider, ev.externalId).None? && db.invoices[inv].status == INVOICE_CREATED
    ensures Inv(PostCredit(db, inv, ev, releaseAt, booked).db)
  {
    var step := PostCredit(db, inv, ev, releaseAt, booked);
    if step.result.Ok? {
      var draft := CreditDraft(db, inv, ev, booked);
      PostKeepsSound(db.journals, draft);
      PostedMoves(db.journals, draft);
      CreditedKeeps(db, step.db, draft, inv, ev, booked, NewPayment(inv, db.invoices[inv], ev, VERIFIED, Some(releaseAt)));
    }
  }

  lemma CreditedKeeps(db: Db, next: Db, draft: JournalDraft, inv: nat, ev: Evidence, booked: int, p: Payment)
    requires Inv(db) && Sound(next.journals) && inv < |db.invoices| && db.invoices[inv].status == INVOICE_CREATED
    requires FindPayment(db.payments, ev.provider, ev.externalId).None?
    requires draft == CreditDraft(db, inv, ev, booked) && LinesError(draft.lines).None?
    requires p.provider == ev.provider && p.externalId == ev.externalId
    requires p.invoice == inv && p.merchant == db.invoices[inv].merchant && p.status == VERIFIED
    requires next.journals == db.journals + [Journal(draft.reference, draft.operationId.value, Entries(draft.lines))]
    requires forall a, b :: Balance(next.journals, a, b) == Balance(db.journals, a, b) + Sum(draft.lines, LineMoves(a, b))
    requires forall k: nat :: PendingAmount(next.journals, k) ==
               PendingAmount(db.journals, k) + if draft.reference == PaymentRef(k) then Sum(draft.lines, PendingLine()) else 0
    requires next == db.(journals := next.journals, payments := db.payments + [p],
                         invoices := db.invoices[inv := db.invoices[inv].(status := PAID)])
    ensures Inv(next)
  {
    GramBookSame(db.journals, next.journals, draft, db.invoices[inv], booked);
    CreditedBooks(db, next, draft, inv, booked, p);
    CreditedPaidOnce(db.invoices, db.payments, inv, p);
    CreditedNet(db.invoices[inv], booked);
    CreditedRows(db.invoices, db.payments, inv, p);
    assert InvoiceSane(db.invoices[inv]);
    CreditedPending(db, next, draft, inv, booked, p);
    CreditedMarks(db, next, draft, ev, p);
  }

  lemma CreditedRows(invoices: seq<Invoice>, payments: seq<Payment>, inv: nat, p: Payment)
    requires inv < |invoices| && Linked(invoices, payments) && NetsPositive(invoices, payments)
    requires p.invoice == inv && p.merchant == invoices[inv].merchant && invoices[inv].fees.merchantNet > 0
    requires FindPayment(payments, p.provider, p.externalId).None?
    ensures Linked(invoices[inv := invoices[inv].(status := PAID)], payments + [p])
    ensures NetsPositive(invoices[inv := invoices[inv].(status := PAID)], payments + [p])
  {
  }

  /** The ledger takes the merchant's line only with a positive amount. */
  lemma CreditedNet(i: Invoice, booked: int)
    requires LinesError(CreditLines(i, booked)).None?
    ensures i.fees.merchantNet > 0
  {
    EntriesOneSided(CreditLines(i, booked));
    assert LineError(CreditLines(i, booked)[1]).None?;
  }

  lemma CreditedMarks(db: Db, next: Db, draft: JournalDraft, ev: Evidence, p: Payment)
    requires OperationsDone(db.journals, db.payments, db.payouts, db.treasuryTxs)
    requires draft.operationId == Some(PaymentVerified(ev.provider, ev.externalId)) && LinesError(draft.lines).None?
    requires next.journals == db.journals + [Journal(draft.reference, draft.operationId.value, Entries(draft.lines))]
    requires next.payments == db.payments + [p] && p.provider == ev.provider && p.externalId == ev.externalId
    ensures OperationsDone(next.journals, next.payments, db.payouts, db.treasuryTxs)
  {
    MarksStay(db.journals, db.payments, next.payments, db.payouts, db.treasuryTxs);
    assert next.payments[|db.payments|] == p;
    assert FindPayment(next.payments, ev.provider, ev.externalId).Some?;
  }

  lemma GramBookSame(before: seq<Journal>, after: seq<Journal>, draft: JournalDraft, i: Invoice, booked: int)
    requires draft.lines == CreditLines(i, booked)
    requires forall a, b :: Balance(after, a, b) == Balance(before, a, b) + Sum(draft.lines, LineMoves(a, b))
    ensures GramBook(after) == GramBook(before)
  {
    CreditLinesMove(i, booked, System(TreasuryGram), AVAILABLE);
    CreditLinesMove(i, booked, System(SettlementClearingGram), AVAILABLE);
    CreditLinesMove(i, booked, System(NetworkFeeExpenseGram), AVAILABLE);
    CreditLinesMove(i, booked, System(TreasuryFundingEquity), AVAILABLE);
  }

  lemma CreditedBooks(db: Db, next: Db, draft: JournalDraft, inv: nat, booked: int, p: Payment)
    requires inv < |db.invoices| && Linked(db.invoices, db.payments)
    requires MerchantBooks(db.journals, db.invoices, db.payments, db.payouts)
    requires draft.lines == CreditLines(db.invoices[inv], booked)
    requires forall a, b :: Balance(next.journals, a, b) == Balance(db.journals, a, b) + Sum(draft.lines, LineMoves(a, b))
    requires next.invoices == db.invoices[inv := db.invoices[inv].(status := PAID)]
    requires next.payments == db.payments + [p] && next.payouts == db.payouts
    requires p.invoice == inv && p.merchant == db.invoices[inv].merchant && p.status == VERIFIED
    ensures MerchantBooks(next.journals, next.invoices, next.payments, next.payouts)
  {
    forall m ensures MerchantBook(next.journals, next.invoices, next.payments, next.payouts, m) {
      assert MerchantBook(db.journals, db.invoices, db.payments, db.payouts, m);
      CreditLinesMove(db.invoices[inv], booked, Merchant(m), PENDING);
      CreditLinesMove(db.invoices[inv], booked, Merchant(m), SETTLING);
      CreditLinesMove(db.invoices[inv], booked, Merchant(m), AVAILABLE);
      SumSame(db.payments, VerifiedNet(next.invoices, m), VerifiedNet(db.invoices, m));
      SumSame(db.payments, ReleasedNet(next.invoices, m), ReleasedNet(db.invoices, m));
      AppendNets(db.payments, p, next.invoices, m);
    }
  }

  lemma CreditedPaidOnce(invoices: seq<Invoice>, payments: seq<Payment>, inv: nat, p: Payment)
    requires inv < |invoices| && PaidOnce(invoices, payments) && invoices[inv].status != PAID
    requires p.invoice == inv && Credited(p)
    ensures PaidOnce(invoices[inv := invoices[inv].(status := PAID)], payments + [p])
  {
    var after := payments + [p];
    var next := invoices[inv := invoices[inv].(status := PAID)];
    assert after[|payments|] == p;
    forall i | 0 <= i < |next|
      ensures next[i].status == PAID <==> exists k :: 0 <= k < |after| && after[k].invoice == i && Credited(after[k])
    {
      if i != inv && next[i].status == PAID {
        assert invoices[i].status == PAID;
        var k :| 0 <= k < |payments| && payments[k].invoice == i && Credited(payments[k]);
        assert after[k] == payments[k];
      }
    }
  }

  lemma CreditedPending(db: Db, next: Db, draft: JournalDraft, inv: nat, booked: int, p: Payment)
    requires inv < |db.invoices| && Linked(db.invoices, db.payments) && PendingHeld(db.journals, db.invoices, db.payments)
    requires draft.lines == CreditLines(db.invoices[inv], booked) && draft.reference == PaymentRef(|db.payments|)
    requires forall k: nat :: PendingAmount(next.journals, k) ==
               PendingAmount(db.journals, k) + if draft.reference == PaymentRef(k) then Sum(draft.lines, PendingLine()) else 0
    requires next.invoices == db.invoices[inv := db.invoices[inv].(status := PAID)] && next.payments == db.payments + [p]
    requires p.invoice == inv && p.status == VERIFIED
    ensures PendingHeld(next.journals, next.invoices, next.payments)
  {
    CreditLinesMove(db.invoices[inv], booked, Merchant(0), PENDING);
  }

  ghost predicate Credits(db: Db, next: Db, inv: nat, ev: Evidence)
    requires inv < |db.invoices|
  {
    exists releaseAt, booked :: next == PostCredit(db, inv, ev, releaseAt, booked).db
  }

  lemma CreditShape(db: Db, inv: nat, ev: Evidence, holdTime: int, providerBps: nat)
    requires inv < |db.invoices| && ev.paidAt.Some?
    ensures var next := CreditPayment(db, inv, ev, holdTime, providerBps).db; next == db || Credits(db, next, inv, ev)
  {
    var cost := CalculateProviderCost(Toman(db.invoices[inv].fees.customerTotal), providerBps);
    if cost.Ok? && ev.paid >= 0 && holdTime >= 0 {
      var booked := if ev.reportedFee.Some? then ev.reportedFee.value else cost.value;
      assert CreditPayment(db, inv, ev, holdTime, providerBps).db == PostCredit(db, inv, ev, ev.paidAt.value + holdTime, booked).db;
    }
  }

  ghost predicate FinalizeStep(db: Db, next: Db, inv: nat, ev: Evidence) {
    || next == db
    || (inv < |db.invoices| && FindPayment(db.payments, ev.provider, ev.externalId).None?
        && (|| next == Uncredited(db, inv, ev, PAYMENT_FAILED).db
            || next == Uncredited(db, inv, ev, PAYMENT_UNKNOWN).db
            || next == Uncredited(db, inv, ev, MISMATCH).db
            || (db.invoices[inv].status == INVOICE_CREATED && Credits(db, next, inv, ev))))
  }

  /** A finalize call changes nothing, records a payment that credits nothing, or credits one. */
  lemma FinalizeCases(db: Db, inv: nat, ev: Evidence, holdTime: int, providerBps: nat)
    ensures FinalizeStep(db, FinalizePayment(db, inv, ev, holdTime, providerBps).db, inv, ev)
  {
    if inv < |db.invoices| && ev.paidAt.Some? {
      CreditShape(db, inv, ev, holdTime, providerBps);
    }
  }

  lemma FinalizeStepKeeps(db: Db, next: Db, inv: nat, ev: Evidence)
    requires Inv(db) && FinalizeStep(db, next, inv, ev)
    ensures Inv(next)
  {
    if next != db {
      if next == Uncredited(db, inv, ev, PAYMENT_FAILED).db {
        UncreditedKeeps(db, inv, ev, PAYMENT_FAILED);
      } else if next == Uncredited(db, inv, ev, PAYMENT_UNKNOWN).db {
        UncreditedKeeps(db, inv, ev, PAYMENT_UNKNOWN);
      } else if next == Uncredited(db, inv, ev, MISMATCH).db {
        UncreditedKeeps(db, inv, ev, MISMATCH);
      } else {
        var releaseAt, booked :| next == PostCredit(db, inv, ev, releaseAt, booked).db;
        PostCreditKeeps(db, inv, ev, releaseAt, booked);
      }
    }
  }

  lemma FinalizePaymentKeeps(db: Db, inv: nat, ev: Evidence, holdTime: int, providerBps: nat)
    requires Inv(db)
    ensures Inv(FinalizePayment(db, inv, ev, holdTime, providerBps).db)
  {
    FinalizeCases(db, inv, ev, holdTime, providerBps);
    FinalizeStepKeeps(db, FinalizePayment(db, inv, ev, holdTime, providerBps).db, inv, ev);
  }

  // ---------------------------------------------------------------------------
  // Holds and release
  // ---------------------------------------------------------------------------

  lemma UpdateNets(payments: seq<Payment>, id: nat, p: Payment, invoices: seq<Invoice>, m: nat)
    requires id < |payments|
    ensures Sum(payments[id := p], VerifiedNet(invoices, m)) ==
      Sum(payments, VerifiedNet(invoices, m)) - VerifiedNet(invoices, m)(payments[id]) + VerifiedNet(invoices, m)(p)
    ensures Sum(payments[id := p], ReleasedNet(invoices, m)) ==
      Sum(payments, ReleasedNet(invoices, m)) - ReleasedNet(invoices, m)(payments[id]) + ReleasedNet(invoices, m)(p)
  {
    SumUpdate(payments, id, p, VerifiedNet(invoices, m));
    SumUpdate(payments, id, p, ReleasedNet(invoices, m));
  }

  /** Rewriting a payment without changing its invoice, or whether it is credited, keeps invoices and payments in step. */
  lemma RowPaidOnce(invoices: seq<Invoice>, payments: seq<Payment>, id: nat, p: Payment)
    requires id < |payments| && PaidOnce(invoices, payments)
    requires p.invoice == payments[id].invoice && (Credited(p) <==> Credited(payments[id]))
    ensures PaidOnce(invoices, payments[id := p])
  {
    var after := payments[id := p];
    assert forall k :: 0 <= k < |after| ==>
      after[k].invoice == payments[k].invoice && (Credited(after[k]) <==> Credited(payments[k]));
    forall i | 0 <= i < |invoices|
      ensures invoices[i].status == PAID <==> exists k :: 0 <= k < |after| && after[k].invoice == i && Credited(after[k])
    {
      if invoices[i].status == PAID {
        var k :| 0 <= k < |payments| && payments[k].invoice == i && Credited(payments[k]);
        assert after[k].invoice == i && Credited(after[k]);
      }
      if k :| 0 <= k < |after| && after[k].invoice == i && Credited(after[k]) {
        assert payments[k].invoice == i && Credited(payments[k]);
      }
    }
  }

  lemma HoldBooks(db: Db, id: nat, p: Payment)
    requires id < |db.payments| && MerchantBooks(db.journals, db.invoices, db.payments, db.payouts)
    requires p == db.payments[id].(held := p.held)
    ensures MerchantBooks(db.journals, db.invoices, db.payments[id := p], db.payouts)
  {
    var after := db.payments[id := p];
    forall m ensures MerchantBook(db.journals, db.invoices, after, db.payouts, m) {
      assert MerchantBook(db.journals, db.invoices, db.payments, db.payouts, m);
      UpdateNets(db.payments, id, p, db.invoices, m);
    }
  }

  lemma HoldRows(js: seq<Journal>, invoices: seq<Invoice>, payments: seq<Payment>, id: nat, p: Payment)
    requires id < |payments| && p == payments[id].(held := p.held)
    requires Linked(invoices, payments) && NetsPositive(invoices, payments) && PendingHeld(js, invoices, payments)
    ensures Linked(invoices, payments[id := p]) && NetsPositive(invoices, payments[id := p])
    ensures PendingHeld(js, invoices, payments[id := p])
  {
  }

  lemma SetHoldKeeps(db: Db, id: nat, held: bool)
    requires Inv(db)
    ensures Inv(SetHold(db, id, held).db)
  {
    if id < |db.payments| {
      var p := db.payments[id].(held := held);
      MarksStay(db.journals, db.payments, db.payments[id := p], db.payouts, db.treasuryTxs);
      RowPaidOnce(db.invoices, db.payments, id, p);
      HoldBooks(db, id, p);
      HoldRows(db.journals, db.invoices, db.payments, id, p);
    }
  }

  function ReleaseDraft(p: Payment, id: nat, amount: int): JournalDraft {
    JournalDraft(PaymentRef(id), Some(PaymentReleased(id)), ReleaseLines(p.merchant, amount))
  }

  lemma ReleasePaymentKeeps(db: Db, id: nat, now: int, merchantActive: bool)
    requires Inv(db)
    ensures Inv(ReleasePayment(db, id, now, merchantActive).db)
  {
    var step := ReleasePayment(db, id, now, merchantActive);
    if step.result.Ok? && step.result.value.Some? {
      var amount := PendingAmount(db.journals, id);
      var draft := ReleaseDraft(db.payments[id], id, amount);
      PostKeepsSound(db.journals, draft);
      PostedMoves(db.journals, draft);
      ReleasedKeeps(db, step.db, draft, id, amount);
    }
  }

  lemma ReleasedKeeps(db: Db, next: Db, draft: JournalDraft, id: nat, amount: int)
    requires Inv(db) && Sound(next.journals) && id < |db.payments| && db.payments[id].status == VERIFIED
    requires amount == PendingAmount(db.journals, id)
    requires draft == ReleaseDraft(db.payments[id], id, amount) && LinesError(draft.lines).None?
    requires next.journals == db.journals + [Journal(draft.reference, draft.operationId.value, Entries(draft.lines))]
    requires forall a, b :: Balance(next.journals, a, b) == Balance(db.journals, a, b) + Sum(draft.lines, LineMoves(a, b))
    requires forall k: nat :: PendingAmount(next.journals, k) ==
               PendingAmount(db.journals, k) + if draft.reference == PaymentRef(k) then Sum(draft.lines, PendingLine()) else 0
    requires next == db.(journals := next.journals, payments := db.payments[id := db.payments[id].(status := PAYMENT_RELEASED)])
    ensures Inv(next)
  {
    var p, q := db.payments[id], next.payments[id];
    assert amount == MerchantNet(db.invoices, p);
    ReleasedBooks(db, next, amount, id);
    RowPaidOnce(db.invoices, db.payments, id, q);
    ReleasedPending(db, next, draft, id, amount);
    MarksStay(db.journals, db.payments, next.payments, db.payouts, db.treasuryTxs);
    assert OperationsDone(next.journals, next.payments, next.payouts, next.treasuryTxs);
    ReleasedGram(db.journals, next.journals, p.merchant, amount);
  }

  lemma ReleasedPending(db: Db, next: Db, draft: JournalDraft, id: nat, amount: int)
    requires PendingHeld(db.journals, db.invoices, db.payments) && id < |db.payments| && db.payments[id].status == VERIFIED
    requires amount == PendingAmount(db.journals, id) && draft == ReleaseDraft(db.payments[id], id, amount)
    requires forall k: nat :: PendingAmount(next.journals, k) ==
               PendingAmount(db.journals, k) + if draft.reference == PaymentRef(k) then Sum(draft.lines, PendingLine()) else 0
    requires next.invoices == db.invoices
    requires next.payments == db.payments[id := db.payments[id].(status := PAYMENT_RELEASED)]
    ensures PendingHeld(next.journals, next.invoices, next.payments)
  {
    ReleaseLinesMove(db.payments[id].merchant, amount, Merchant(0), PENDING);
  }

  lemma ReleasedGram(before: seq<Journal>, after: seq<Journal>, m: nat, amount: int)
    requires forall a, b :: Balance(after, a, b) == Balance(before, a, b) + Sum(ReleaseLines(m, amount), LineMoves(a, b))
    ensures GramBook(after) == GramBook(before)
  {
    ReleaseLinesMove(m, amount, System(TreasuryGram), AVAILABLE);
    ReleaseLinesMove(m, amount, System(SettlementClearingGram), AVAILABLE);
    ReleaseLinesMove(m, amount, System(NetworkFeeExpenseGram), AVAILABLE);
    ReleaseLinesMove(m, amount, System(TreasuryFundingEquity), AVAILABLE);
  }

  lemma ReleasedBooks(db: Db, next: Db, amount: int, id: nat)
    requires id < |db.payments| && MerchantBooks(db.journals, db.invoices, db.payments, db.payouts)
    requires db.payments[id].status == VERIFIED && amount == MerchantNet(db.invoices, db.payments[id])
    requires forall a, b :: Balance(next.journals, a, b)
               == Balance(db.journals, a, b) + Sum(ReleaseLines(db.payments[id].merchant, amount), LineMoves(a, b))
    requires next.payments == db.payments[id := db.payments[id].(status := PAYMENT_RELEASED)]
    requires next.invoices == db.invoices && next.payouts == db.payouts
    ensures MerchantBooks(next.journals, next.invoices, next.payments, next.payouts)
  {
    var p := db.payments[id];
    forall m ensures MerchantBook(next.journals, next.invoices, next.payments, next.payouts, m) {
      assert MerchantBook(db.journals, db.invoices, db.payments, db.payouts, m);
      ReleaseLinesMove(p.merchant, amount, Merchant(m), PENDING);
      ReleaseLinesMove(p.merchant, amount, Merchant(m), SETTLING);
      ReleaseLinesMove(p.merchant, amount, Merchant(m), AVAILABLE);
      UpdateNets(db.payments, id, p.(status := PAYMENT_RELEASED), db.invoices, m);
    }
  }
}
