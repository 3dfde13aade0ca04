/** What holds after any interleaving of the gateway's transactions, whichever succeed and whichever are refused. */
module PipelineTheorems {
  import opened Basics
  import opened MoneyMath
  import opened Sums
  import opened Ledger
  import opened Fees
  import opened Pipeline
  import opened PipelineInvariants
  import opened PaymentSteps
  import opened PayoutSteps
  import opened PayoutRows

  lemma EmptyDbHolds(safety: nat)
    ensures Inv(EmptyDb(safety))
  {
  }

  predicate OnPayments(op: Operation) {
    op.OpCreateInvoice? || op.OpCancelInvoice? || op.OpExpireInvoices? || op.OpFinalizePayment? || op.OpSetHold? || op.OpReleasePayment?
  }

  lemma PaymentOpKeeps(db: Db, op: Operation)
    requires Inv(db) && OnPayments(op)
    ensures Inv(Apply(db, op))
  {
    match op
    case OpCreateInvoice(q) => CreateInvoiceKeeps(db, q);
    case OpCancelInvoice(merchant, id) => CancelInvoiceKeeps(db, merchant, id);
    case OpExpireInvoices(now) => ExpireInvoicesKeeps(db, now);
    case OpFinalizePayment(inv, ev, hold, bps) => FinalizePaymentKeeps(db, inv, ev, hold, bps);
    case OpSetHold(id, held) => SetHoldKeeps(db, id, held);
    case OpReleasePayment(id, now, active) => ReleasePaymentKeeps(db, id, now, active);
  }

  lemma ClaimOpKeeps(db: Db, op: Operation)
    requires Inv(db) && (op.OpQueuePayout? || op.OpReserveLiquidity?)
    ensures Inv(Apply(db, op))
  {
    match op
    case OpQueuePayout(q) =>
      QueuePayoutKeeps(db, q);
      assert Apply(db, op) == QueuePayout(db, q).db;
    case OpReserveLiquidity(id, now, ttl) =>
      ReserveLiquidityKeeps(db, id, now, ttl);
      assert Apply(db, op) == ReserveLiquidity(db, id, now, ttl).db;
  }

  lemma EndOpKeeps(db: Db, op: Operation)
    requires Inv(db) && (op.OpSettlePayout? || op.OpFailPayout?)
    ensures Inv(Apply(db, op))
  {
    match op
    case OpSettlePayout(id, ev, required, now) =>
      SettlePayoutKeeps(db, id, ev, required, now);
      assert Apply(db, op) == SettlePayout(db, id, ev, required, now).db;
    case OpFailPayout(id, now) =>
      FailPayoutKeeps(db, id, now);
      assert Apply(db, op) == FailPayout(db, id, now).db;
  }

  lemma TreasuryOpKeeps(db: Db, op: Operation)
    requires Inv(db) && (op.OpExpireReservations? || op.OpFundTreasury?)
    ensures Inv(Apply(db, op))
  {
    match op
    case OpExpireReservations(now) =>
      ExpireReservationsKeeps(db, now);
      assert Apply(db, op) == ExpireReservations(db, now).db;
    case OpFundTreasury(amount, txHash) =>
      FundTreasuryKeeps(db, amount, txHash);
      assert Apply(db, op) == FundTreasury(db, amount, txHash).db;
  }

  lemma SignOpKeeps(db: Db, op: Operation)
    requires Inv(db) && (op.OpLockRate? || op.OpRecordSignature?)
    ensures Inv(Apply(db, op))
  {
    match op
    case OpLockRate(id, quote, source, expired, now) =>
      LockRateKeeps(db, id, quote, source, expired, now);
      assert Apply(db, op) == LockRate(db, id, quote, source, expired, now).db;
    case OpRecordSignature(id, reference, now) =>
      RecordSignatureKeeps(db, id, reference, now);
      assert Apply(db, op) == RecordSignature(db, id, reference, now).db;
  }

  lemma SendOpKeeps(db: Db, op: Operation)
    requires Inv(db) && (op.OpPrepareBroadcast? || op.OpRecordBroadcast?)
    ensures Inv(Apply(db, op))
  {
    match op
    case OpPrepareBroadcast(id, now, gate, wallet) =>
      PrepareBroadcastKeeps(db, id, now, gate, wallet);
      assert Apply(db, op) == PrepareBroadcast(db, id, now, gate, wallet).db;
    case OpRecordBroadcast(id, txHash, now) =>
      RecordBroadcastKeeps(db, id, txHash, now);
      assert Apply(db, op) == RecordBroadcast(db, id, txHash, now).db;
  }

  lemma UnknownOpKeeps(db: Db, id: nat, now: int)
    requires Inv(db)
    ensures Inv(Apply(db, OpMarkUnknown(id, now)))
  {
    MarkUnknownKeeps(db, id, now);
  }

  lemma StatusOpKeeps(db: Db, op: Operation)
    requires Inv(db) && (op.OpMarkConfirming? || op.OpResetNotFound?)
    ensures Inv(Apply(db, op))
  {
    match op
    case OpMarkConfirming(id, txHash, now) =>
      MarkConfirmingKeeps(db, id, txHash, now);
      assert Apply(db, op) == MarkConfirming(db, id, txHash, now).db;
    case OpResetNotFound(id, now) =>
      ResetNotFoundKeeps(db, id, now);
      assert Apply(db, op) == ResetNotFound(db, id, now).db;
  }

  /** Every transaction keeps the invariant. */
  lemma ApplyKeeps(db: Db, op: Operation)
    requires Inv(db)
    ensures Inv(Apply(db, op))
  {
    if OnPayments(op) {
      PaymentOpKeeps(db, op);
    } else if op.OpQueuePayout? || op.OpReserveLiquidity? {
      ClaimOpKeeps(db, op);
    } else if op.OpSettlePayout? || op.OpFailPayout? {
      EndOpKeeps(db, op);
    } else if op.OpExpireReservations? || op.OpFundTreasury? {
      TreasuryOpKeeps(db, op);
    } else if op.OpLockRate? || op.OpRecordSignature? {
      SignOpKeeps(db, op);
    } else if op.OpPrepareBroadcast? || op.OpRecordBroadcast? {
      SendOpKeeps(db, op);
    } else if op.OpMarkUnknown? {
      UnknownOpKeeps(db, op.id, op.now);
    } else {
      StatusOpKeeps(db, op);
    }
  }

  lemma {:induction false} RunKeeps(db: Db, ops: seq<Operation>)
    requires Inv(db)
    ensures Inv(Run(db, ops))
  {
    if ops != [] {
      RunKeeps(db, ops[..|ops| - 1]);
      ApplyKeeps(Run(db, ops[..|ops| - 1]), ops[|ops| - 1]);
    }
  }

  /** A database some run from empty tables leads to. */
  ghost predicate Reachable(db: Db) {
    exists safety: nat, ops: seq<Operation> :: db == Run(EmptyDb(safety), ops)
  }

  lemma ReachableHolds(db: Db)
    requires Reachable(db)
    ensures Inv(db)
  {
    var safety: nat, ops: seq<Operation> :| db == Run(EmptyDb(safety), ops);
    EmptyDbHolds(safety);
    RunKeeps(EmptyDb(safety), ops);
  }

  lemma ReachableApply(db: Db, op: Operation)
    requires Reachable(db)
    ensures Reachable(Apply(db, op))
  {
    var safety: nat, ops: seq<Operation> :| db == Run(EmptyDb(safety), ops);
    assert (ops + [op])[..|ops|] == ops;
    assert Apply(db, op) == Run(EmptyDb(safety), ops + [op]);
  }

  lemma ReachableConforms(db: Db)
    requires Reachable(db)
    ensures Conforms(db.payouts)
  {
    var safety: nat, ops: seq<Operation> :| db == Run(EmptyDb(safety), ops);
    RunConforms(EmptyDb(safety), ops);
  }

  // ---------------------------------------------------------------------------
  // Merchants
  // ---------------------------------------------------------------------------

  /**
   PENDING is the net of the merchant's VERIFIED payments, SETTLING the amounts of its unfinished payouts, and
   AVAILABLE its released nets less the gross of every payout that has not failed.
   */
  lemma MerchantBucketsMatchRows(db: Db, m: nat)
    requires Reachable(db)
    ensures Balance(db.journals, Merchant(m), PENDING) == Sum(db.payments, VerifiedNet(db.invoices, m))
    ensures Balance(db.journals, Merchant(m), SETTLING) == Sum(db.payouts, Unsettled(m))
    ensures Balance(db.journals, Merchant(m), AVAILABLE)
         == Sum(db.payments, ReleasedNet(db.invoices, m)) - Sum(db.payouts, Withdrawn(m))
    ensures Balance(db.journals, Merchant(m), AVAILABLE) >= 0
  {
    ReachableHolds(db);
    assert MerchantBook(db.journals, db.invoices, db.payments, db.payouts, m);
  }

  /** An invoice is PAID exactly when one of its payments is VERIFIED or RELEASED, and no second one ever is. */
  lemma InvoicesPaidOnce(db: Db, i: nat)
    requires Reachable(db) && i < |db.invoices|
    ensures db.invoices[i].status == PAID <==>
              exists k :: 0 <= k < |db.payments| && db.payments[k].invoice == i && Credited(db.payments[k])
    ensures forall j, k :: 0 <= j < k < |db.payments| && Credited(db.payments[j]) && Credited(db.payments[k]) ==>
              db.payments[j].invoice != i || db.payments[k].invoice != i
    ensures forall j, k :: 0 <= j < k < |db.payments| && db.payments[j].provider == db.payments[k].provider ==>
              db.payments[j].externalId != db.payments[k].externalId
  {
    ReachableHolds(db);
  }

  /** The SETTLING bucket always covers each unfinished payout of the merchant. */
  lemma SettlingCovers(db: Db, id: nat)
    requires Inv(db) && id < |db.payouts| && !Terminal(db.payouts[id].status)
    ensures db.payouts[id].amount <= Balance(db.journals, Merchant(db.payouts[id].merchant), SETTLING)
    ensures PayoutSane(db.payouts[id])
  {
    var m := db.payouts[id].merchant;
    assert MerchantBook(db.journals, db.invoices, db.payments, db.payouts, m);
    forall k | 0 <= k < |db.payouts| ensures Unsettled(m)(db.payouts[k]) >= 0 {
      assert PayoutSane(db.payouts[k]);
    }
    SumBounds(db.payouts, Unsettled(m));
  }
  // ---------------------------------------------------------------------------
  // Drafts the ledger accepts
  // ---------------------------------------------------------------------------

  /** When the posting reaches line `k`, its account is known and its bucket is not overdrawn. */
  predicate Covered(js: seq<Journal>, ls: seq<JournalLine>, k: nat)
    requires k < |ls|
  {
    var a, b := ls[k].account, ls[k].bucket;
    TypeOf(a).Some? && (BalanceBearing(a) ==> Balance(js, a, b) + Sum(ls[..k + 1], LineMoves(a, b)) >= 0)
  }

  lemma {:induction false} LinesPass(js: seq<Journal>, ls: seq<JournalLine>)
    requires forall i :: 0 <= i < |ls| ==> OneSidedLine(ls[i]) && Covered(js, ls, i)
    ensures LinesError(ls).None? && ProjectionError(js, Entries(ls)).None?
  {
    if ls != [] {
      var n := |ls| - 1;
      forall i | 0 <= i < n ensures Covered(js, ls[..n], i) {
        assert ls[..n][..i + 1] == ls[..i + 1];
        assert Covered(js, ls, i);
      }
      LinesPass(js, ls[..n]);
      assert Covered(js, ls, n) && ls[..n + 1] == ls;
      EntriesMoveAsLines(ls, ls[n].account, ls[n].bucket);
    }
  }

  ghost predicate SidesEqual(ls: seq<JournalLine>) {
    forall c :: Sum(ls, Side(c, true)) == Sum(ls, Side(c, false))
  }

  lemma DraftPosts(js: seq<Journal>, d: JournalDraft)
    requires d.lines != [] && d.operationId.Some? && FindOperation(js, d.operationId.value).None?
    requires SidesEqual(d.lines)
    requires forall i :: 0 <= i < |d.lines| ==> OneSidedLine(d.lines[i]) && Covered(js, d.lines, i)
    ensures Posting(js, d).result.Posted? && Posting(js, d).result.created
  {
    LinesPass(js, d.lines);
    forall c ensures Sum(Entries(d.lines), DebitIn(c)) == Sum(Entries(d.lines), CreditIn(c)) {
      EntriesSideAsLines(d.lines, c);
    }
  }

  lemma UndoneIsNew(db: Db, op: OperationId)
    requires OperationsDone(db.journals, db.payments, db.payouts, db.treasuryTxs)
    requires forall j :: OperationDone(j, db.payments, db.payouts, db.treasuryTxs) ==> j.operationId != op
    ensures FindOperation(db.journals, op).None?
  {
    forall j | j in db.journals ensures j.operationId != op {
      assert OperationDone(j, db.payments, db.payouts, db.treasuryTxs);
    }
  }

  // ---------------------------------------------------------------------------
  // Failing and settling
  // ---------------------------------------------------------------------------

  lemma FailSidesEqual(p: Payout)
    ensures SidesEqual(FailLines(p))
  {
    var base := [Debit(Merchant(p.merchant), Toman(p.amount), SETTLING), Credit(Merchant(p.merchant), Toman(p.amount), AVAILABLE)];
    var extra := if p.instant && p.fee > 0
      then [Debit(System(InstantWithdrawalRevenueToman), Toman(p.fee)), Credit(Merchant(p.merchant), Toman(p.fee), AVAILABLE)] else [];
    assert base + [] + extra == FailLines(p);
    forall c ensures Sum(FailLines(p), Side(c, true)) == Sum(FailLines(p), Side(c, false)) {
      OptionalSums(base, [], extra, Side(c, true));
      OptionalSums(base, [], extra, Side(c, false));
    }
  }

  lemma FailCovered(js: seq<Journal>, p: Payout, i: nat)
    requires NeverNegative(js) && PayoutSane(p) && i < |FailLines(p)|
    requires p.amount <= Balance(js, Merchant(p.merchant), SETTLING)
    ensures OneSidedLine(FailLines(p)[i]) && Covered(js, FailLines(p), i)
  {
    var ls := FailLines(p);
    var f := LineMoves(ls[i].account, ls[i].bucket);
    assert BalanceBearing(Merchant(p.merchant));
    assert Balance(js, Merchant(p.merchant), AVAILABLE) >= 0;
    if i == 0 {
      assert ls[..1] == [ls[0]];
      Sum1(ls[0], f);
    } else if i == 1 {
      assert ls[..2] == [ls[0], ls[1]];
      Sum2(ls[0], ls[1], f);
    } else if i == 3 {
      assert ls[..4] == [ls[0], ls[1], ls[2], ls[3]];
      Sum4(ls[0], ls[1], ls[2], ls[3], f);
    }
  }

  /** A payout can be failed exactly while its status allows it: the ledger never stands in the way. */
  lemma FailingNeverOverdraws(db: Db, id: nat, now: int)
    requires Reachable(db) && id < |db.payouts|
    ensures FailPayout(db, id, now).result == Ok(true) <==> db.payouts[id].status !in {FAILED, SETTLED, UNKNOWN}
  {
    ReachableHolds(db);
    var p := db.payouts[id];
    if p.status !in {FAILED, SETTLED, UNKNOWN} {
      var draft := FailDraft(p, id);
      SettlingCovers(db, id);
      UndoneIsNew(db, PayoutFailed(id));
      FailSidesEqual(p);
      forall i | 0 <= i < |draft.lines| ensures OneSidedLine(draft.lines[i]) && Covered(db.journals, draft.lines, i) {
        FailCovered(db.journals, p, i);
      }
      DraftPosts(db.journals, draft);
    }
  }

  lemma SettleSidesEqual(p: Payout, gram: int, fee: int)
    requires fee >= 0
    ensures SidesEqual(SettleLines(p, gram, fee))
  {
    forall c ensures Sum(SettleLines(p, gram, fee), Side(c, true)) == Sum(SettleLines(p, gram, fee), Side(c, false)) {
      SettleSum(p, gram, fee, Side(c, true));
      SettleSum(p, gram, fee, Side(c, false));
    }
  }

  lemma SettleCovered(js: seq<Journal>, p: Payout, gram: int, fee: int, i: nat)
    requires PayoutSane(p) && gram > 0 && fee >= 0 && i < |SettleLines(p, gram, fee)|
    requires p.amount <= Balance(js, Merchant(p.merchant), SETTLING)
    requires gram + fee <= Balance(js, System(TreasuryGram), AVAILABLE)
    ensures OneSidedLine(SettleLines(p, gram, fee)[i]) && Covered(js, SettleLines(p, gram, fee), i)
  {
    var ls := SettleLines(p, gram, fee);
    if i == 0 {
      assert ls[..1] == [ls[0]];
      Sum1(ls[0], LineMoves(ls[i].account, ls[i].bucket));
    } else if i == |ls| - 1 {
      assert ls[..i + 1] == ls;
      SettleLinesMove(p, gram, fee, System(TreasuryGram), AVAILABLE);
    }
  }

  lemma SettlementPosts(db: Db, id: nat, gram: int, fee: int)
    requires Inv(db) && id < |db.payouts| && !Terminal(db.payouts[id].status)
    requires gram > 0 && fee >= 0 && gram + fee <= db.confirmed
    ensures var r := Posting(db.journals, SettleDraft(db.payouts[id], id, gram, fee)).result; r.Posted? && r.created
  {
    var p := db.payouts[id];
    var draft := SettleDraft(p, id, gram, fee);
    SettlingCovers(db, id);
    UndoneIsNew(db, PayoutSettled(id));
    SettleSidesEqual(p, gram, fee);
    forall i | 0 <= i < |draft.lines| ensures OneSidedLine(draft.lines[i]) && Covered(db.journals, draft.lines, i) {
      SettleCovered(db.journals, p, gram, fee, i);
    }
    DraftPosts(db.journals, draft);
  }

  lemma PostedSettlementFits(db: Db, id: nat, gram: int, fee: int)
    requires Inv(db) && id < |db.payouts|
    requires var r := Posting(db.journals, SettleDraft(db.payouts[id], id, gram, fee)).result; r.Posted? && r.created
    ensures fee >= 0 && gram + fee <= db.confirmed
  {
    var draft := SettleDraft(db.payouts[id], id, gram, fee);
    PostKeepsSound(db.journals, draft);
    PostedMoves(db.journals, draft);
    SettledFeeNotNegative(db.journals, draft, db.payouts[id], gram, fee);
    SettleLinesMove(db.payouts[id], gram, fee, System(TreasuryGram), AVAILABLE);
    assert BalanceBearing(System(TreasuryGram));
  }

  /** The ledger refuses an overdraft before the treasury row is looked at, so that row's own check never fires. */
  lemma PostedSettlementIsCovered(db: Db, id: nat, ev: ChainEvidence, gram: int, fee: int, now: int)
    requires Inv(db) && id < |db.payouts|
    requires db.payouts[id].status in {BROADCASTED, CONFIRMING, UNKNOWN} && db.payouts[id].gram == Some(gram)
    ensures PostSettlement(db, id, ev, gram, fee, now).result != Err(TreasuryOverdrawn)
    ensures PostSettlement(db, id, ev, gram, fee, now).result == Ok(true) <==>
              fee >= 0 && gram + fee <= db.confirmed
              && db.payouts[id].signingReference.Some? && !HashTaken(db.payouts, id, Some(ev.txHash))
  {
    var r := Posting(db.journals, SettleDraft(db.payouts[id], id, gram, fee)).result;
    assert PayoutSane(db.payouts[id]);
    if r.Posted? && r.created {
      PostedSettlementFits(db, id, gram, fee);
    } else if fee >= 0 && gram + fee <= db.confirmed {
      SettlementPosts(db, id, gram, fee);
    }
  }

  /**
   A payout settles exactly when it is on its way and signed, the evidence matches and names a transaction no other payout
   carries, and the treasury holds principal and fee.
   */
  lemma SettlesExactlyWhenCovered(db: Db, id: nat, ev: ChainEvidence, required: int, now: int)
    requires Reachable(db) && id < |db.payouts|
    ensures var p := db.payouts[id];
            var fee := if ev.networkFee.Some? then ev.networkFee.value else 0;
            var r := SettlePayout(db, id, ev, required, now).result;
            && (r == Ok(true) <==>
                  && p.status in {BROADCASTED, CONFIRMING, UNKNOWN}
                  && ev.assetIsGram && ev.network == p.network && ev.destination == p.destination
                  && p.gram == Some(ev.amount) && ev.confirmations >= required
                  && fee >= 0 && ev.amount + fee <= db.confirmed && p.signingReference.Some?
                  && (forall k :: 0 <= k < |db.payouts| && k != id ==> db.payouts[k].txHash != Some(ev.txHash)))
            && r != Err(TreasuryOverdrawn)
  {
    ReachableHolds(db);
    var p := db.payouts[id];
    assert PayoutBacked(p, id, db.reservations);
    if p.status in {BROADCASTED, CONFIRMING, UNKNOWN} && EvidenceError(p, ev, required).None? {
      PostedSettlementIsCovered(db, id, ev, p.gram.value, if ev.networkFee.Some? then ev.networkFee.value else 0, now);
    }
  }

  /** In every state no transaction hash is on two payouts, and a settled payout has one: no transaction settles two. */
  lemma NoTransactionSettlesTwo(db: Db)
    requires Reachable(db)
    ensures forall j, k :: 0 <= j < k < |db.payouts| && db.payouts[j].txHash.Some? ==>
              db.payouts[j].txHash != db.payouts[k].txHash
    ensures forall k :: 0 <= k < |db.payouts| && db.payouts[k].status == SETTLED ==>
              db.payouts[k].txHash.Some? && db.payouts[k].signingReference.Some?
  {
    ReachableConforms(db);
    forall k | 0 <= k < |db.payouts| && db.payouts[k].status == SETTLED
      ensures db.payouts[k].txHash.Some? && db.payouts[k].signingReference.Some?
    {
      assert Evidenced(db.payouts[k]);
    }
  }

  /** In every state a merchant has at most one payout that is neither settled nor failed, and SETTLING is its amount. */
  lemma OnePayoutAtATime(db: Db, id: nat)
    requires Reachable(db) && id < |db.payouts| && !Terminal(db.payouts[id].status)
    ensures forall k :: 0 <= k < |db.payouts| && k != id && db.payouts[k].merchant == db.payouts[id].merchant ==>
              Terminal(db.payouts[k].status)
    ensures Balance(db.journals, Merchant(db.payouts[id].merchant), SETTLING) == db.payouts[id].amount
  {
    ReachableConforms(db);
    ReachableHolds(db);
    assert MerchantBook(db.journals, db.invoices, db.payments, db.payouts, db.payouts[id].merchant);
    OnlyUnsettled(db.payouts, id);
  }

  lemma OnlyUnsettled(ps: seq<Payout>, id: nat)
    requires OneUnfinished(ps) && id < |ps| && !Terminal(ps[id].status)
    ensures Sum(ps, Unsettled(ps[id].merchant)) == ps[id].amount
    ensures forall k :: 0 <= k < |ps| && k != id && ps[k].merchant == ps[id].merchant ==> Terminal(ps[k].status)
  {
    SumOnly(ps, Unsettled(ps[id].merchant), id);
  }

  // ---------------------------------------------------------------------------
  // Crediting and queueing
  // ---------------------------------------------------------------------------

  const CLEARING := System(ProviderClearingToman)

  lemma CreditSums(i: Invoice, booked: int, f: JournalLine -> int)
    ensures Sum(CreditLines(i, booked), f) ==
      f(Debit(CLEARING, Toman(i.fees.customerTotal))) + f(Credit(Merchant(i.merchant), Toman(i.fees.merchantNet), PENDING))
      + (if i.fees.platformFee > 0 then f(Credit(System(PlatformRevenueToman), Toman(i.fees.platformFee))) else 0)
      + (if booked > 0 then f(Debit(System(PlatformExpenseToman), Toman(booked))) + f(Credit(CLEARING, Toman(booked))) else 0)
  {
    var base := [Debit(CLEARING, Toman(i.fees.customerTotal)), Credit(Merchant(i.merchant), Toman(i.fees.merchantNet), PENDING)];
    var revenue := if i.fees.platformFee > 0 then [Credit(System(PlatformRevenueToman), Toman(i.fees.platformFee))] else [];
    var provider := if booked > 0
      then [Debit(System(PlatformExpenseToman), Toman(booked)), Credit(CLEARING, Toman(booked))] else [];
    OptionalSums(base, revenue, provider, f);
  }

  lemma CreditCovered(js: seq<Journal>, i: Invoice, booked: nat, k: nat)
    requires NeverNegative(js) && InvoiceSane(i) && i.fees.merchantNet > 0 && k < |CreditLines(i, booked)|
    requires booked <= Balance(js, CLEARING, AVAILABLE) + i.fees.customerTotal
    ensures OneSidedLine(CreditLines(i, booked)[k]) && Covered(js, CreditLines(i, booked), k)
  {
    var ls := CreditLines(i, booked);
    assert BalanceBearing(CLEARING) && BalanceBearing(Merchant(i.merchant));
    assert Balance(js, CLEARING, AVAILABLE) >= 0 && Balance(js, Merchant(i.merchant), PENDING) >= 0;
    if k == 0 {
      assert ls[..1] == [ls[0]];
      Sum1(ls[0], LineMoves(CLEARING, AVAILABLE));
    } else if k == 1 {
      assert ls[..2] == [ls[0], ls[1]];
      Sum2(ls[0], ls[1], LineMoves(Merchant(i.merchant), PENDING));
    } else if k == |ls| - 1 && booked > 0 {
      assert ls[..k + 1] == ls;
      CreditSums(i, booked, LineMoves(CLEARING, AVAILABLE));
    }
  }

  /** The ledger takes the credit exactly when there is a net to credit and clearing can bear the provider's fee. */
  lemma CreditPosts(db: Db, inv: nat, ev: Evidence, booked: nat)
    requires Inv(db) && inv < |db.invoices| && FindPayment(db.payments, ev.provider, ev.externalId).None?
    ensures var i := db.invoices[inv];
            var r := Posting(db.journals, CreditDraft(db, inv, ev, booked)).result;
            (r.Posted? && r.created <==>
               i.fees.merchantNet > 0 && booked <= Balance(db.journals, CLEARING, AVAILABLE) + i.fees.customerTotal)
  {
    var i := db.invoices[inv];
    var draft := CreditDraft(db, inv, ev, booked);
    var posting := Posting(db.journals, draft);
    assert InvoiceSane(i);
    if posting.result.Posted? && posting.result.created {
      PostedCreditIsCovered(db.journals, draft, i, booked);
    } else if i.fees.merchantNet > 0 && booked <= Balance(db.journals, CLEARING, AVAILABLE) + i.fees.customerTotal {
      CoveredCreditPosts(db, draft, i, booked);
    }
  }

  lemma PostedCreditIsCovered(js: seq<Journal>, draft: JournalDraft, i: Invoice, booked: nat)
    requires Sound(js) && draft.lines == CreditLines(i, booked) && Posting(js, draft).result.Posted? && Posting(js, draft).result.created
    ensures i.fees.merchantNet > 0 && booked <= Balance(js, CLEARING, AVAILABLE) + i.fees.customerTotal
  {
    PostKeepsSound(js, draft);
    PostedMoves(js, draft);
    CreditedNet(i, booked);
    CreditSums(i, booked, LineMoves(CLEARING, AVAILABLE));
    assert BalanceBearing(CLEARING);
  }

  lemma CoveredCreditPosts(db: Db, draft: JournalDraft, i: Invoice, booked: nat)
    requires OperationsDone(db.journals, db.payments, db.payouts, db.treasuryTxs) && NeverNegative(db.journals)
    requires draft.lines == CreditLines(i, booked) && draft.operationId.Some? && draft.operationId.value.PaymentVerified?
    requires FindPayment(db.payments, draft.operationId.value.provider, draft.operationId.value.externalId).None?
    requires InvoiceSane(i) && i.fees.merchantNet > 0 && booked <= Balance(db.journals, CLEARING, AVAILABLE) + i.fees.customerTotal
    ensures Posting(db.journals, draft).result.Posted? && Posting(db.journals, draft).result.created
  {
    UndoneIsNew(db, draft.operationId.value);
    forall c ensures Sum(draft.lines, Side(c, true)) == Sum(draft.lines, Side(c, false)) {
      CreditSums(i, booked, Side(c, true));
      CreditSums(i, booked, Side(c, false));
    }
    forall k | 0 <= k < |draft.lines| ensures OneSidedLine(draft.lines[k]) && Covered(db.journals, draft.lines, k) {
      CreditCovered(db.journals, i, booked, k);
    }
    DraftPosts(db.journals, draft);
  }

  /** The provider's evidence and the invoice agree on everything a credit depends on. */
  ghost predicate Matches(db: Db, inv: nat, ev: Evidence) {
    && ev.externalId != "" && inv < |db.invoices|
    && (forall k :: 0 <= k < |db.payments| ==>
          !(db.payments[k].provider == ev.provider && db.payments[k].externalId == ev.externalId))
    && (ev.orderId.None? || ev.orderId.value == inv)
    && ev.status == PROVIDER_PAID
    && (db.invoices[inv].payRial.None? || ev.rawRial == NotReported || ev.rawRial == Rial(db.invoices[inv].payRial.value))
    && ev.paid >= 0
    && ev.paid == (if db.invoices[inv].payToman.Some? then db.invoices[inv].payToman.value else db.invoices[inv].fees.customerTotal)
    && db.invoices[inv].status == INVOICE_CREATED
    && ev.paidAt.Some? && ev.paidAt.value <= db.invoices[inv].expiresAt
  }

  lemma UnmatchedIsNotCredited(db: Db, inv: nat, ev: Evidence, holdTime: int, providerBps: nat)
    requires !Matches(db, inv, ev)
    ensures var r := FinalizePayment(db, inv, ev, holdTime, providerBps).result; r.Ok? ==> !r.value.credited
  {
  }

  lemma MatchedIsCreditPayment(db: Db, inv: nat, ev: Evidence, holdTime: int, providerBps: nat)
    requires Matches(db, inv, ev)
    ensures FinalizePayment(db, inv, ev, holdTime, providerBps) == CreditPayment(db, inv, ev, holdTime, providerBps)
  {
  }

  /**
   A payment is credited if and only if the evidence matches, the hold is not negative, the expected provider fee can be
   computed, the merchant's net is positive and the provider's fee does not exceed what clearing then holds.
   */
  lemma CreditsExactlyWhenMatched(db: Db, inv: nat, ev: Evidence, holdTime: int, providerBps: nat)
    requires Reachable(db)
    ensures var r := FinalizePayment(db, inv, ev, holdTime, providerBps).result;
            (r.Ok? && r.value.credited <==>
               && Matches(db, inv, ev) && holdTime >= 0
               && var fees := db.invoices[inv].fees;
                  var cost := CalculateProviderCost(Toman(fees.customerTotal), providerBps);
                  && cost.Ok? && fees.merchantNet > 0
                  && (if ev.reportedFee.Some? then ev.reportedFee.value else cost.value)
                     <= Balance(db.journals, CLEARING, AVAILABLE) + fees.customerTotal)
  {
    ReachableHolds(db);
    if Matches(db, inv, ev) {
      MatchedIsCreditPayment(db, inv, ev, holdTime, providerBps);
      CreditPaymentCredits(db, inv, ev, holdTime, providerBps);
    } else {
      UnmatchedIsNotCredited(db, inv, ev, holdTime, providerBps);
    }
  }

  lemma CreditPaymentCredits(db: Db, inv: nat, ev: Evidence, holdTime: int, providerBps: nat)
    requires Inv(db) && Matches(db, inv, ev)
    ensures var r := CreditPayment(db, inv, ev, holdTime, providerBps).result;
            var fees := db.invoices[inv].fees;
            var cost := CalculateProviderCost(Toman(fees.customerTotal), providerBps);
            (r.Ok? && r.value.credited <==>
               && holdTime >= 0 && cost.Ok? && fees.merchantNet > 0
               && (if ev.reportedFee.Some? then ev.reportedFee.value else cost.value)
                  <= Balance(db.journals, CLEARING, AVAILABLE) + fees.customerTotal)
  {
    var fees := db.invoices[inv].fees;
    var cost := CalculateProviderCost(Toman(fees.customerTotal), providerBps);
    if cost.Ok? {
      assert InvoiceSane(db.invoices[inv]);
      NonNegativeRounds(fees.customerTotal, providerBps, CEIL);
      CreditPosts(db, inv, ev, if ev.reportedFee.Some? then ev.reportedFee.value else cost.value);
    }
  }

  lemma QueueSidesEqual(m: nat, gross: int, net: int, fee: int)
    requires gross == net + fee && fee >= 0
    ensures SidesEqual(QueueLines(m, gross, net, fee))
  {
    var base := [Debit(Merchant(m), Toman(gross), AVAILABLE), Credit(Merchant(m), Toman(net), SETTLING)];
    var extra := if fee > 0 then [Credit(System(InstantWithdrawalRevenueToman), Toman(fee))] else [];
    assert base + extra + [] == QueueLines(m, gross, net, fee);
    forall c ensures Sum(QueueLines(m, gross, net, fee), Side(c, true)) == Sum(QueueLines(m, gross, net, fee), Side(c, false)) {
      OptionalSums(base, extra, [], Side(c, true));
      OptionalSums(base, extra, [], Side(c, false));
    }
  }

  lemma QueueCovered(js: seq<Journal>, m: nat, gross: int, net: int, fee: int, k: nat)
    requires NeverNegative(js) && net > 0 && fee >= 0 && 0 < gross <= Balance(js, Merchant(m), AVAILABLE)
    requires k < |QueueLines(m, gross, net, fee)|
    ensures OneSidedLine(QueueLines(m, gross, net, fee)[k]) && Covered(js, QueueLines(m, gross, net, fee), k)
  {
    var ls := QueueLines(m, gross, net, fee);
    assert BalanceBearing(Merchant(m));
    assert Balance(js, Merchant(m), SETTLING) >= 0;
    if k == 0 {
      assert ls[..1] == [ls[0]];
      Sum1(ls[0], LineMoves(Merchant(m), AVAILABLE));
    } else if k == 1 {
      assert ls[..2] == [ls[0], ls[1]];
      Sum2(ls[0], ls[1], LineMoves(Merchant(m), SETTLING));
    }
  }

  lemma QueuePosts(db: Db, merchant: nat, instant: bool, gross: int, fee: int, w: Wallet, now: int)
    requires OperationsDone(db.journals, db.payments, db.payouts, db.treasuryTxs) && NeverNegative(db.journals)
    requires 0 <= fee < gross <= Balance(db.journals, Merchant(merchant), AVAILABLE)
    ensures InsertPayout(db, merchant, instant, gross, fee, w, now).result
         == if HasUnfinished(db.payouts, merchant) then Err(MerchantInFlight) else Ok(Queued(|db.payouts|, gross - fee, gross, fee))
  {
    QueueDraftPosts(db, merchant, gross, fee);
  }

  lemma QueueDraftPosts(db: Db, merchant: nat, gross: int, fee: int)
    requires OperationsDone(db.journals, db.payments, db.payouts, db.treasuryTxs) && NeverNegative(db.journals)
    requires 0 <= fee < gross <= Balance(db.journals, Merchant(merchant), AVAILABLE)
    ensures var id := |db.payouts|;
            var d := JournalDraft(PayoutRef(id), Some(PayoutQueued(id)), QueueLines(merchant, gross, gross - fee, fee));
            Posting(db.journals, d).result.Posted? && Posting(db.journals, d).result.created
  {
    var id := |db.payouts|;
    var draft := JournalDraft(PayoutRef(id), Some(PayoutQueued(id)), QueueLines(merchant, gross, gross - fee, fee));
    UndoneIsNew(db, PayoutQueued(id));
    QueueSidesEqual(merchant, gross, gross - fee, fee);
    forall k | 0 <= k < |draft.lines| ensures OneSidedLine(draft.lines[k]) && Covered(db.journals, draft.lines, k) {
      QueueCovered(db.journals, merchant, gross, gross - fee, fee, k);
    }
    DraftPosts(db.journals, draft);
  }

  lemma TwoPercent(gross: int)
    requires gross >= 0
    ensures var fee := Rounded(gross * 2, 100, FLOOR); 50 * fee <= gross < 50 * fee + 50 && 0 <= fee && (gross > 0 ==> fee < gross)
  {
    RoundedIsRounding(gross * 2, 100, FLOOR);
  }

  lemma UnseenInFlight(ps: seq<Payout>, merchant: nat)
    ensures HasInFlight(ps, merchant) ==> HasUnfinished(ps, merchant)
    ensures HasUnfinished(ps, merchant) && !HasInFlight(ps, merchant) ==>
              exists k :: 0 <= k < |ps| && ps[k].merchant == merchant && ps[k].status in {SIGNED, CONFIRMING}
  {
    if HasInFlight(ps, merchant) {
      var k :| 0 <= k < |ps| && ps[k].merchant == merchant && ps[k].status in QUEUE_IN_FLIGHT;
      assert !Terminal(ps[k].status);
    } else if HasUnfinished(ps, merchant) {
      var k :| 0 <= k < |ps| && ps[k].merchant == merchant && !Terminal(ps[k].status);
      assert ps[k].status in {SIGNED, CONFIRMING};
    }
  }

  /** What the queue step would take: the request, or all there is, cut to the maximum. */
  ghost function Gross(db: Db, q: QueueRequest): int {
    var available := Balance(db.journals, Merchant(q.merchant), AVAILABLE);
    var wanted := if q.requested.Some? then q.requested.value else available;
    if wanted > q.maxPayout then q.maxPayout else wanted
  }

  ghost predicate Payable(db: Db, q: QueueRequest) {
    var available := Balance(db.journals, Merchant(q.merchant), AVAILABLE);
    && q.merchantActive && (q.instant || q.autoPayout)
    && q.wallet.Some? && (q.wallet.value.holdUntil.None? || q.wallet.value.holdUntil.value <= q.now)
    && (q.requested.Some? ==> q.requested.value <= available)
    && q.minPayout <= (if q.requested.Some? then q.requested.value else available)
    && 0 < Gross(db, q) <= MAX_TOMAN
  }

  lemma PayableIsInserted(db: Db, q: QueueRequest)
    requires Payable(db, q) && !HasInFlight(db.payouts, q.merchant)
    ensures var fee := if q.instant then Rounded(Gross(db, q) * 2, 100, FLOOR) else 0;
            QueuePayout(db, q) == InsertPayout(db, q.merchant, q.instant, Gross(db, q), fee, q.wallet.value, q.now)
  {
    TwoPercent(Gross(db, q));
  }

  lemma UnpayableIsNotQueued(db: Db, q: QueueRequest)
    requires !Payable(db, q) || HasInFlight(db.payouts, q.merchant)
    ensures var r := QueuePayout(db, q).result;
            !(r.Ok? && r.value.Queued?) && (r.Err? ==> r.error in {AmountNotPositive, AmountTooLarge})
  {
    if Gross(db, q) >= 0 { TwoPercent(Gross(db, q)); }
  }

  ghost function QueueFee(db: Db, q: QueueRequest): int {
    if q.instant then Rounded(Gross(db, q) * 2, 100, FLOOR) else 0
  }

  lemma PayableIsQueued(db: Db, q: QueueRequest)
    requires OperationsDone(db.journals, db.payments, db.payouts, db.treasuryTxs) && NeverNegative(db.journals)
    requires Payable(db, q) && !HasInFlight(db.payouts, q.merchant)
    ensures QueuePayout(db, q).result
         == if HasUnfinished(db.payouts, q.merchant) then Err(MerchantInFlight)
            else Ok(Queued(|db.payouts|, Gross(db, q) - QueueFee(db, q), Gross(db, q), QueueFee(db, q)))
  {
    TwoPercent(Gross(db, q));
    PayableIsInserted(db, q);
    QueuePosts(db, q.merchant, q.instant, Gross(db, q), QueueFee(db, q), q.wallet.value, q.now);
  }


  /**
   The ledger never refuses a payout that passed the checks, and a queued one takes no more than the balance, fee included.
   The table refuses it when the merchant has a payout the in-flight check does not look for, SIGNED or CONFIRMING.
   */
  lemma QueueingNeverOverdraws(db: Db, q: QueueRequest)
    requires Reachable(db)
    ensures var r := QueuePayout(db, q).result;
            && (r.Err? ==> r.error in {AmountNotPositive, AmountTooLarge, MerchantInFlight})
            && (r == Err(MerchantInFlight) ==>
                  exists k :: 0 <= k < |db.payouts| && db.payouts[k].merchant == q.merchant
                              && db.payouts[k].status in {SIGNED, CONFIRMING})
            && (r.Ok? && r.value.Queued? ==>
                  && q.merchantActive && q.wallet.Some? && !HasUnfinished(db.payouts, q.merchant)
                  && r.value.payout == |db.payouts| && r.value.net > 0 && r.value.net + r.value.fee == r.value.gross
                  && r.value.gross <= Balance(db.journals, Merchant(q.merchant), AVAILABLE) && r.value.gross <= q.maxPayout
                  && (q.requested.Some? ==> r.value.gross <= q.requested.value)
                  && (if q.instant then 50 * r.value.fee <= r.value.gross < 50 * r.value.fee + 50 else r.value.fee == 0))
  {
    ReachableHolds(db);
    UnseenInFlight(db.payouts, q.merchant);
    if Payable(db, q) && !HasInFlight(db.payouts, q.merchant) {
      PayableIsQueued(db, q);
      TwoPercent(Gross(db, q));
    } else {
      UnpayableIsNotQueued(db, q);
    }
  }

  /**
   A payout is queued if and only if the merchant is active, asked or set to be paid, has a wallet off hold, no unfinished
   payout, and a positive amount within the balance, the minimum and the limits.
   */
  lemma QueuesExactlyWhenPayable(db: Db, q: QueueRequest)
    requires Reachable(db)
    ensures var r := QueuePayout(db, q).result;
            && (r.Ok? && r.value.Queued? <==> Payable(db, q) && !HasUnfinished(db.payouts, q.merchant))
            && (Payable(db, q) && !HasUnfinished(db.payouts, q.merchant) ==>
                  r == Ok(Queued(|db.payouts|, Gross(db, q) - QueueFee(db, q), Gross(db, q), QueueFee(db, q))))
  {
    ReachableHolds(db);
    UnseenInFlight(db.payouts, q.merchant);
    if Payable(db, q) && !HasInFlight(db.payouts, q.merchant) {
      PayableIsQueued(db, q);
    } else {
      UnpayableIsNotQueued(db, q);
    }
  }

  lemma FundSidesEqual(amount: int)
    ensures SidesEqual(FundLines(amount))
  {
    var ls := FundLines(amount);
    forall c ensures Sum(ls, Side(c, true)) == Sum(ls, Side(c, false)) {
      Sum2(ls[0], ls[1], Side(c, true));
      Sum2(ls[0], ls[1], Side(c, false));
    }
  }

  /** A positive funding under a new operation is always posted. */
  lemma FundingPosts(js: seq<Journal>, amount: int, txHash: string)
    requires NeverNegative(js) && amount > 0 && FindOperation(js, TreasuryFunded(txHash)).None?
    ensures Posting(js, FundDraft(amount, txHash)).result.Posted? && Posting(js, FundDraft(amount, txHash)).result.created
  {
    var ls := FundLines(amount);
    FundSidesEqual(amount);
    assert BalanceBearing(System(TreasuryGram)) && Balance(js, System(TreasuryGram), AVAILABLE) >= 0;
    forall i | 0 <= i < 2 ensures OneSidedLine(ls[i]) && Covered(js, ls, i) {
      if i == 0 {
        assert ls[..1] == [ls[0]];
        Sum1(ls[0], LineMoves(System(TreasuryGram), AVAILABLE));
      }
    }
    DraftPosts(js, FundDraft(amount, txHash));
  }

  /** Funding is booked exactly when its amount is positive and representable and its hash is new. */
  lemma FundsExactlyWhenNew(db: Db, amount: int, txHash: string)
    requires Reachable(db)
    ensures FundTreasury(db, amount, txHash).result == Ok(true) <==> 0 < amount <= MAX_GRAM && !KnownTx(db.treasuryTxs, txHash)
  {
    ReachableHolds(db);
    if 0 < amount <= MAX_GRAM && !KnownTx(db.treasuryTxs, txHash) {
      FundingIsNew(db, txHash);
      FundingPosts(db.journals, amount, txHash);
    }
  }

  // ---------------------------------------------------------------------------
  // Releasing
  // ---------------------------------------------------------------------------

  lemma PendingCovers(db: Db, id: nat)
    requires Inv(db) && id < |db.payments| && db.payments[id].status == VERIFIED
    ensures 0 < MerchantNet(db.invoices, db.payments[id]) <= Balance(db.journals, Merchant(db.payments[id].merchant), PENDING)
    ensures PendingAmount(db.journals, id) == MerchantNet(db.invoices, db.payments[id])
  {
    var m := db.payments[id].merchant;
    assert MerchantBook(db.journals, db.invoices, db.payments, db.payouts, m);
    assert Credited(db.payments[id]);
    forall k | 0 <= k < |db.payments| ensures VerifiedNet(db.invoices, m)(db.payments[k]) >= 0 {
      assert Credited(db.payments[k]) ==> MerchantNet(db.invoices, db.payments[k]) > 0;
    }
    SumBounds(db.payments, VerifiedNet(db.invoices, m));
  }

  lemma ReleasePosts(db: Db, id: nat)
    requires Inv(db) && id < |db.payments| && db.payments[id].status == VERIFIED
    ensures var d := ReleaseDraft(db.payments[id], id, PendingAmount(db.journals, id));
            Posting(db.journals, d).result.Posted? && Posting(db.journals, d).result.created
  {
    var p, amount := db.payments[id], PendingAmount(db.journals, id);
    var draft := ReleaseDraft(p, id, amount);
    PendingCovers(db, id);
    UndoneIsNew(db, PaymentReleased(id));
    forall c ensures Sum(draft.lines, Side(c, true)) == Sum(draft.lines, Side(c, false)) {
      Sum2(draft.lines[0], draft.lines[1], Side(c, true));
      Sum2(draft.lines[0], draft.lines[1], Side(c, false));
    }
    forall i | 0 <= i < 2 ensures OneSidedLine(draft.lines[i]) && Covered(db.journals, draft.lines, i) {
      ReleaseCovered(db.journals, p, id, amount, i);
    }
    DraftPosts(db.journals, draft);
  }

  lemma ReleaseCovered(js: seq<Journal>, p: Payment, id: nat, amount: int, i: nat)
    requires NeverNegative(js) && 0 < amount <= Balance(js, Merchant(p.merchant), PENDING) && i < 2
    ensures OneSidedLine(ReleaseLines(p.merchant, amount)[i]) && Covered(js, ReleaseLines(p.merchant, amount), i)
  {
    var ls := ReleaseLines(p.merchant, amount);
    assert BalanceBearing(Merchant(p.merchant));
    assert Balance(js, Merchant(p.merchant), AVAILABLE) >= 0;
    if i == 0 {
      assert ls[..1] == [ls[0]];
      Sum1(ls[0], LineMoves(ls[0].account, ls[0].bucket));
    } else {
      assert ls[..2] == ls;
      Sum2(ls[0], ls[1], LineMoves(ls[1].account, ls[1].bucket));
    }
  }

  /**
   A payment is released exactly when it is verified, matured, not held and its merchant is active; then it moves its own
   merchant net, never another payment's money, and no release ever fails.
   */
  lemma ReleasesExactlyWhenEligible(db: Db, id: nat, now: int, merchantActive: bool)
    requires Reachable(db)
    ensures var eligible := id < |db.payments| && db.payments[id].status == VERIFIED && db.payments[id].releaseAt.Some?
                            && db.payments[id].releaseAt.value <= now && merchantActive && !db.payments[id].held;
            ReleasePayment(db, id, now, merchantActive).result
              == Ok(if eligible then Some(MerchantNet(db.invoices, db.payments[id])) else None)
  {
    ReachableHolds(db);
    if id < |db.payments| && db.payments[id].status == VERIFIED {
      PendingCovers(db, id);
      ReleasePosts(db, id);
    }
  }

  // ---------------------------------------------------------------------------
  // What is settled stays settled
  // ---------------------------------------------------------------------------

  /** SETTLED and FAILED payouts, and credited payments, are never taken back. */
  ghost predicate Final(before: Db, after: Db) {
    && |before.payouts| <= |after.payouts| && |before.payments| <= |after.payments|
    && (forall k :: 0 <= k < |before.payouts| && Terminal(before.payouts[k].status) ==> after.payouts[k] == before.payouts[k])
    && (forall k :: 0 <= k < |before.payments| ==>
          && after.payments[k].provider == before.payments[k].provider
          && after.payments[k].externalId == before.payments[k].externalId
          && after.payments[k].invoice == before.payments[k].invoice
          && after.payments[k].merchant == before.payments[k].merchant
          && after.payments[k].releaseAt == before.payments[k].releaseAt
          && (Credited(after.payments[k]) <==> Credited(before.payments[k]))
          && (before.payments[k].status == PAYMENT_RELEASED ==> after.payments[k].status == PAYMENT_RELEASED))
  }

  lemma FinalizeIsFinal(db: Db, inv: nat, ev: Evidence, hold: int, bps: nat)
    ensures Final(db, FinalizePayment(db, inv, ev, hold, bps).db)
  {
    FinalizeCases(db, inv, ev, hold, bps);
  }

  lemma QueueIsFinal(db: Db, q: QueueRequest)
    ensures Final(db, QueuePayout(db, q).db)
  {
  }

  lemma SettledRow(db: Db, id: nat, ev: ChainEvidence, required: int, now: int)
    ensures OneRow(db, SettlePayout(db, id, ev, required, now).db, id)
  {
  }

  lemma SettleIsFinal(db: Db, id: nat, ev: ChainEvidence, required: int, now: int)
    ensures Final(db, SettlePayout(db, id, ev, required, now).db)
  {
    SettledRow(db, id, ev, required, now);
    OneRowIsFinal(db, SettlePayout(db, id, ev, required, now).db, id);
  }

  lemma FailedRow(db: Db, id: nat, now: int)
    ensures OneRow(db, FailPayout(db, id, now).db, id)
  {
  }

  lemma FailIsFinal(db: Db, id: nat, now: int)
    ensures Final(db, FailPayout(db, id, now).db)
  {
    FailedRow(db, id, now);
    OneRowIsFinal(db, FailPayout(db, id, now).db, id);
  }

  /** At most payout `id` changed, and it was not finished. */
  ghost predicate OneRow(db: Db, next: Db, id: nat) {
    && next.payments == db.payments
    && (next.payouts == db.payouts
        || (id < |db.payouts| && !Terminal(db.payouts[id].status) && |next.payouts| == |db.payouts|
            && next.payouts == db.payouts[id := next.payouts[id]]))
  }

  lemma OneRowIsFinal(db: Db, next: Db, id: nat)
    requires OneRow(db, next, id)
    ensures Final(db, next)
  {
  }

  lemma LockedRow(db: Db, id: nat, quote: string, source: string, expired: bool, now: int)
    ensures OneRow(db, LockRate(db, id, quote, source, expired, now).db, id)
  {
  }

  lemma LockIsFinal(db: Db, id: nat, quote: string, source: string, expired: bool, now: int)
    ensures Final(db, LockRate(db, id, quote, source, expired, now).db)
  {
    LockedRow(db, id, quote, source, expired, now);
    OneRowIsFinal(db, LockRate(db, id, quote, source, expired, now).db, id);
  }

  lemma ReleaseIsFinal(db: Db, id: nat, now: int, active: bool)
    ensures Final(db, ReleasePayment(db, id, now, active).db)
  {
  }

  lemma ReserveIsFinal(db: Db, id: nat, now: int, ttl: int)
    ensures Final(db, ReserveLiquidity(db, id, now, ttl).db)
  {
  }

  lemma FundIsFinal(db: Db, amount: int, txHash: string)
    ensures Final(db, FundTreasury(db, amount, txHash).db)
  {
  }

  lemma PaymentOpIsFinal(db: Db, op: Operation)
    requires OnPayments(op)
    ensures Final(db, Apply(db, op))
  {
    match op
    case OpFinalizePayment(inv, ev, hold, bps) => FinalizeIsFinal(db, inv, ev, hold, bps);
    case OpReleasePayment(id, now, active) => ReleaseIsFinal(db, id, now, active);
    case _ =>
  }

  lemma ExpireIsFinal(db: Db, now: int)
    ensures Final(db, ExpireReservations(db, now).db)
  {
  }

  lemma SignatureIsFinal(db: Db, id: nat, reference: string, now: int)
    ensures Final(db, RecordSignature(db, id, reference, now).db)
  {
  }

  lemma PrepareIsFinal(db: Db, id: nat, now: int, gateOpen: bool, wallet: Option<Wallet>)
    ensures Final(db, PrepareBroadcast(db, id, now, gateOpen, wallet).db)
  {
  }

  lemma StatusOpIsFinal(db: Db, op: Operation)
    requires op.OpRecordBroadcast? || op.OpMarkUnknown? || op.OpMarkConfirming? || op.OpResetNotFound?
    ensures Final(db, Apply(db, op))
  {
  }

  lemma ApplyIsFinal(db: Db, op: Operation)
    ensures Final(db, Apply(db, op))
  {
    match op
    case OpQueuePayout(q) => QueueIsFinal(db, q);
    case OpLockRate(id, quote, source, expired, now) => LockIsFinal(db, id, quote, source, expired, now);
    case OpReserveLiquidity(id, now, ttl) => ReserveIsFinal(db, id, now, ttl);
    case OpSettlePayout(id, ev, required, now) => SettleIsFinal(db, id, ev, required, now);
    case OpFailPayout(id, now) => FailIsFinal(db, id, now);
    case OpFundTreasury(amount, txHash) => FundIsFinal(db, amount, txHash);
    case OpExpireReservations(now) => ExpireIsFinal(db, now);
    case OpRecordSignature(id, reference, now) => SignatureIsFinal(db, id, reference, now);
    case OpPrepareBroadcast(id, now, gate, wallet) => PrepareIsFinal(db, id, now, gate, wallet);
    case _ => if OnPayments(op) { PaymentOpIsFinal(db, op); } else { StatusOpIsFinal(db, op); }
  }

  lemma FinalTransitive(a: Db, b: Db, c: Db)
    requires Final(a, b) && Final(b, c)
    ensures Final(a, c)
  {
  }

  /** However a run goes on, no settled or failed payout changes and no credit is withdrawn or repeated. */
  lemma {:induction false} RunIsFinal(db: Db, ops: seq<Operation>)
    ensures Final(db, Run(db, ops))
  {
    if ops != [] {
      var init := ops[..|ops| - 1];
      RunIsFinal(db, init);
      ApplyIsFinal(Run(db, init), ops[|ops| - 1]);
      FinalTransitive(db, Run(db, init), Run(db, ops));
    }
  }

  // ---------------------------------------------------------------------------
  // Treasury and liquidity
  // ---------------------------------------------------------------------------

  /** The treasury row, the treasury account, and funding less settled principal and fees are one number, never negative. */
  lemma TreasuryAgrees(db: Db)
    requires Reachable(db)
    ensures db.confirmed == Balance(db.journals, System(TreasuryGram), AVAILABLE)
    ensures db.confirmed == Sum(db.treasuryTxs, Funding()) - Sum(db.payouts, SettledGram())
              - Balance(db.journals, System(NetworkFeeExpenseGram), AVAILABLE)
    ensures db.confirmed >= 0
  {
    ReachableHolds(db);
    assert BalanceBearing(System(TreasuryGram));
  }

  /** Promised GRAM and the safety reserve stay covered, up to fees charged and payouts settled after their reservation lapsed. */
  lemma PromisesAreCovered(db: Db)
    requires Reachable(db)
    ensures (forall k :: 0 <= k < |db.reservations| ==> db.reservations[k].status != ACTIVE)
         || Sum(db.reservations, ActiveAmount()) + db.safety
            <= db.confirmed + Balance(db.journals, System(NetworkFeeExpenseGram), AVAILABLE)
               + UnreservedPrincipal(db.payouts, db.reservations, |db.payouts|)
  {
    ReachableHolds(db);
  }

  /** Whatever is handed to the chain is a signed payout's locked amount, reserved and unexpired, to the merchant's current wallet. */
  lemma SendsAreBacked(db: Db, id: nat, now: int, gateOpen: bool, wallet: Option<Wallet>)
    requires Reachable(db)
    ensures var r := PrepareBroadcast(db, id, now, gateOpen, wallet).result;
            r.Ok? && r.value.Send? ==>
              && gateOpen && id < |db.payouts| && db.payouts[id].status == SIGNED
              && db.payouts[id].gram == Some(r.value.amount) && r.value.amount > 0
              && wallet.Some? && wallet.value.address == r.value.destination == db.payouts[id].destination
              && exists k :: 0 <= k < |db.reservations| && db.reservations[k].payout == id && db.reservations[k].status == ACTIVE
                             && db.reservations[k].amount == r.value.amount && db.reservations[k].expiresAt > now
  {
    ReachableHolds(db);
    var found := FindActive(db.reservations, id, now);
    if id < |db.payouts| && found.Some? {
      assert PayoutSane(db.payouts[id]);
      assert ReservationOk(db.payouts, db.reservations[found.value]);
    }
  }

  /** An ACTIVE reservation is for an in-flight payout and equals its locked GRAM, so no amount guard ever fires. */
  lemma AmountGuardsNeverFire(db: Db, id: nat, now: int, assetIsGram: bool, network: string, addressValid: bool,
                              gateOpen: bool, wallet: Option<Wallet>, ttl: int)
    requires Reachable(db)
    ensures forall k :: 0 <= k < |db.reservations| && db.reservations[k].status == ACTIVE ==>
              && db.reservations[k].payout < |db.payouts|
              && db.payouts[db.reservations[k].payout].status in IN_FLIGHT
              && db.payouts[db.reservations[k].payout].gram == Some(db.reservations[k].amount)
    ensures CheckSignable(db, id, now, assetIsGram, network, addressValid) != Err(AmountMismatch)
    ensures PrepareBroadcast(db, id, now, gateOpen, wallet).result != Err(AmountMismatch)
    ensures ReserveLiquidity(db, id, now, ttl).result != Err(ReservationExists)
  {
    ReachableHolds(db);
    forall k | 0 <= k < |db.reservations| && db.reservations[k].status == ACTIVE
      ensures ReservationOk(db.payouts, db.reservations[k])
    {
    }
    var found := FindActive(db.reservations, id, now);
    if found.Some? {
      assert ReservationOk(db.payouts, db.reservations[found.value]);
    }
  }
}
