/** Every account is kept in one currency: nothing the gateway books ever mixes Toman and GRAM on one account. */
module AccountCurrencies {
  import opened Basics
  import opened MoneyMath
  import opened Sums
  import opened Ledger
  import opened Pipeline
  import opened PipelineInvariants
  import opened PipelineTheorems
  import PaymentSteps
  import PayoutAnswers

  /** The chart of accounts gives each account its currency; merchants are kept in Toman. */
  function CurrencyOf(a: AccountId): Currency {
    match a
    case System(TreasuryGram) | System(TreasuryFundingEquity) | System(NetworkFeeExpenseGram) | System(SettlementClearingGram) => GRAM
    case _ => TOMAN
  }

  ghost predicate Denominated(js: seq<Journal>) {
    forall j, e :: j in js && e in j.entries ==> e.currency == CurrencyOf(e.account)
  }

  predicate InCurrency(l: JournalLine) {
    (l.debit.Some? ==> l.debit.value.currency == CurrencyOf(l.account))
    && (l.credit.Some? ==> l.credit.value.currency == CurrencyOf(l.account))
  }

  /** Nothing was posted, or one draft whose lines are in their accounts' currencies. */
  ghost predicate PostsInCurrency(before: seq<Journal>, after: seq<Journal>) {
    after == before
    || exists d :: after == Posting(before, d).journals && forall k :: 0 <= k < |d.lines| ==> InCurrency(d.lines[k])
  }

  lemma PostedInCurrency(js: seq<Journal>, d: JournalDraft)
    requires forall k :: 0 <= k < |d.lines| ==> InCurrency(d.lines[k])
    ensures PostsInCurrency(js, Posting(js, d).journals)
  {
  }

  lemma WrittenInCurrency(ls: seq<JournalLine>)
    requires LinesError(ls).None? && forall k :: 0 <= k < |ls| ==> InCurrency(ls[k])
    ensures forall e :: e in Entries(ls) ==> e.currency == CurrencyOf(e.account)
  {
    EntriesOneSided(ls);
    forall k | 0 <= k < |ls| ensures Entries(ls)[k].currency == CurrencyOf(Entries(ls)[k].account) {
      assert InCurrency(ls[k]) && Entries(ls)[k] == ToEntry(ls[k]);
    }
  }

  lemma PostingAdds(js: seq<Journal>, d: JournalDraft)
    ensures var after := Posting(js, d).journals;
            after == js || (LinesError(d.lines).None? && exists j: Journal :: j.entries == Entries(d.lines) && after == js + [j])
  {
    var o := Posting(js, d);
    if o.journals != js {
      var j := Journal(d.reference, d.operationId.value, Entries(d.lines));
      assert j.entries == Entries(d.lines) && o.journals == js + [j];
    }
  }

  lemma PostKeepsDenominated(before: seq<Journal>, after: seq<Journal>)
    requires Denominated(before) && PostsInCurrency(before, after)
    ensures Denominated(after)
  {
    if after != before {
      var d :| after == Posting(before, d).journals && forall k :: 0 <= k < |d.lines| ==> InCurrency(d.lines[k]);
      PostingAdds(before, d);
      WrittenInCurrency(d.lines);
    }
  }

  lemma CreditInCurrency(db: Db, inv: nat, ev: Evidence, releaseAt: int, booked: int)
    requires inv < |db.invoices|
    ensures PostsInCurrency(db.journals, PostCredit(db, inv, ev, releaseAt, booked).db.journals)
  {
    PostedInCurrency(db.journals, CreditDraft(db, inv, ev, booked));
  }

  lemma FinalizeInCurrency(db: Db, inv: nat, ev: Evidence, holdTime: int, providerBps: nat)
    ensures PostsInCurrency(db.journals, FinalizePayment(db, inv, ev, holdTime, providerBps).db.journals)
  {
    PaymentSteps.FinalizeCases(db, inv, ev, holdTime, providerBps);
    StepInCurrency(db, FinalizePayment(db, inv, ev, holdTime, providerBps).db, inv, ev);
  }

  lemma StepInCurrency(db: Db, next: Db, inv: nat, ev: Evidence)
    requires PaymentSteps.FinalizeStep(db, next, inv, ev)
    ensures PostsInCurrency(db.journals, next.journals)
  {
    if next.journals != db.journals {
      var releaseAt, booked :| next == PostCredit(db, inv, ev, releaseAt, booked).db;
      CreditInCurrency(db, inv, ev, releaseAt, booked);
    }
  }

  lemma ReleaseInCurrency(db: Db, id: nat, now: int, merchantActive: bool)
    ensures PostsInCurrency(db.journals, ReleasePayment(db, id, now, merchantActive).db.journals)
  {
    if id < |db.payments| {
      PostedInCurrency(db.journals, PaymentSteps.ReleaseDraft(db.payments[id], id, PendingAmount(db.journals, id)));
    }
  }

  lemma RowInCurrency(db: Db, row: Payout)
    ensures PostsInCurrency(db.journals, PostPayout(db, row).db.journals)
  {
    var id := |db.payouts|;
    PostedInCurrency(db.journals, JournalDraft(PayoutRef(id), Some(PayoutQueued(id)), QueueLines(row.merchant, row.gross, row.amount, row.fee)));
  }

  lemma QueueInCurrency(db: Db, q: QueueRequest)
    ensures PostsInCurrency(db.journals, QueuePayout(db, q).db.journals)
  {
    PayoutAnswers.UnqueuedStores(db, q);
    if QueuePayout(db, q).db != db {
      QueuedIsPosted(db, q);
      var gross, fee := Gross(db, q), QueueFee(db, q);
      RowInCurrency(db, Payout(q.merchant, gross - fee, gross, fee, q.instant, None, q.wallet.value.address,
                               q.wallet.value.network, QUEUED, None, None, 0, q.now));
    }
  }

  lemma QueuedIsPosted(db: Db, q: QueueRequest)
    requires QueuePayout(db, q).result.Ok? && QueuePayout(db, q).result.value.Queued?
    ensures q.wallet.Some?
    ensures var gross, fee := Gross(db, q), QueueFee(db, q);
            QueuePayout(db, q) == PostPayout(db, Payout(q.merchant, gross - fee, gross, fee, q.instant, None, q.wallet.value.address,
                                                        q.wallet.value.network, QUEUED, None, None, 0, q.now))
  {
    if !Payable(db, q) || HasInFlight(db.payouts, q.merchant) {
      UnpayableIsNotQueued(db, q);
    } else {
      PayableIsInserted(db, q);
    }
  }

  lemma SettlementInCurrency(db: Db, id: nat, ev: ChainEvidence, gram: int, fee: int, now: int)
    requires id < |db.payouts|
    ensures PostsInCurrency(db.journals, PostSettlement(db, id, ev, gram, fee, now).db.journals)
  {
    PostedInCurrency(db.journals, SettleDraft(db.payouts[id], id, gram, fee));
  }

  lemma SettleInCurrency(db: Db, id: nat, ev: ChainEvidence, required: int, now: int)
    ensures PostsInCurrency(db.journals, SettlePayout(db, id, ev, required, now).db.journals)
  {
    if SettlePayout(db, id, ev, required, now).db != db {
      var p := db.payouts[id];
      SettlementInCurrency(db, id, ev, if p.gram.Some? then p.gram.value else 0,
                           if ev.networkFee.Some? then ev.networkFee.value else 0, now);
    }
  }

  lemma FailInCurrency(db: Db, id: nat, now: int)
    ensures PostsInCurrency(db.journals, FailPayout(db, id, now).db.journals)
  {
    if id < |db.payouts| {
      PostedInCurrency(db.journals, FailDraft(db.payouts[id], id));
    }
  }

  lemma FundInCurrency(db: Db, amount: int, txHash: string)
    ensures PostsInCurrency(db.journals, FundTreasury(db, amount, txHash).db.journals)
  {
    PostedInCurrency(db.journals, JournalDraft(TreasuryRef, Some(TreasuryFunded(txHash)), FundLines(amount)));
  }

  lemma OthersPostNothing(db: Db, op: Operation)
    requires !op.OpFinalizePayment? && !op.OpReleasePayment? && !op.OpQueuePayout? && !op.OpSettlePayout? && !op.OpFailPayout?
             && !op.OpFundTreasury?
    ensures Apply(db, op).journals == db.journals
  {
  }

  lemma ApplyInCurrency(db: Db, op: Operation)
    ensures PostsInCurrency(db.journals, Apply(db, op).journals)
  {
    match op
    case OpFinalizePayment(inv, ev, hold, bps) => FinalizeInCurrency(db, inv, ev, hold, bps);
    case OpReleasePayment(id, now, active) => ReleaseInCurrency(db, id, now, active);
    case OpQueuePayout(q) => QueueInCurrency(db, q);
    case OpSettlePayout(id, ev, required, now) => SettleInCurrency(db, id, ev, required, now);
    case OpFailPayout(id, now) => FailInCurrency(db, id, now);
    case OpFundTreasury(amount, txHash) => FundInCurrency(db, amount, txHash);
    case _ => OthersPostNothing(db, op);
  }

  lemma {:induction false} RunDenominated(db: Db, ops: seq<Operation>)
    requires Denominated(db.journals)
    ensures Denominated(Run(db, ops).journals)
  {
    if ops != [] {
      var init := ops[..|ops| - 1];
      RunDenominated(db, init);
      ApplyInCurrency(Run(db, init), ops[|ops| - 1]);
      PostKeepsDenominated(Run(db, init).journals, Run(db, ops).journals);
    }
  }

  /** In every reachable database each entry is in its account's currency. */
  lemma AccountsKeepTheirCurrency(db: Db)
    requires Reachable(db)
    ensures Denominated(db.journals)
  {
    var safety: nat, ops: seq<Operation> :| db == Run(EmptyDb(safety), ops);
    RunDenominated(EmptyDb(safety), ops);
  }
}
