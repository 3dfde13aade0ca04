/**
 What every interleaving of transactions keeps: the merchant's buckets, the treasury and the reservations agree
 with the payment, invoice and payout rows.
 */
module PipelineInvariants {
  import opened Basics
  import opened MoneyMath
  import opened Sums
  import opened Ledger
  import opened Fees
  import opened Pipeline

  // ---------------------------------------------------------------------------
  // Contributions of single rows
  // ---------------------------------------------------------------------------

  function MerchantNet(invoices: seq<Invoice>, p: Payment): int {
    if p.invoice < |invoices| then invoices[p.invoice].fees.merchantNet else 0
  }

  function VerifiedNet(invoices: seq<Invoice>, m: nat): Payment -> int {
    (p: Payment) => if p.merchant == m && p.status == VERIFIED then MerchantNet(invoices, p) else 0
  }

  function ReleasedNet(invoices: seq<Invoice>, m: nat): Payment -> int {
    (p: Payment) => if p.merchant == m && p.status == PAYMENT_RELEASED then MerchantNet(invoices, p) else 0
  }

  function Unsettled(m: nat): Payout -> int {
    (p: Payout) => if p.merchant == m && p.status != SETTLED && p.status != FAILED then p.amount else 0
  }

  function Withdrawn(m: nat): Payout -> int {
    (p: Payout) => if p.merchant == m && p.status != FAILED then p.gross else 0
  }

  function SettledGram(): Payout -> int {
    (p: Payout) => if p.status == SETTLED && p.gram.Some? then p.gram.value else 0
  }

  function Funding(): TreasuryTx -> int {
    (t: TreasuryTx) => if t.incoming then t.amount else 0
  }

  // ---------------------------------------------------------------------------
  // The invariant, one concern a predicate
  // ---------------------------------------------------------------------------

  /** Payments belong to their invoice's merchant and a provider payment is recorded once. */
  ghost predicate Linked(invoices: seq<Invoice>, payments: seq<Payment>) {
    && (forall k :: 0 <= k < |payments| ==>
          payments[k].invoice < |invoices| && payments[k].merchant == invoices[payments[k].invoice].merchant)
    && (forall j, k :: 0 <= j < k < |payments| ==>
          !(payments[j].provider == payments[k].provider && payments[j].externalId == payments[k].externalId))
  }

  /** The three buckets of merchant `m` are what the rows say they should be. */
  ghost predicate MerchantBook(js: seq<Journal>, invoices: seq<Invoice>, payments: seq<Payment>, payouts: seq<Payout>, m: nat) {
    && Balance(js, Merchant(m), PENDING) == Sum(payments, VerifiedNet(invoices, m))
    && Balance(js, Merchant(m), SETTLING) == Sum(payouts, Unsettled(m))
    && Balance(js, Merchant(m), AVAILABLE) == Sum(payments, ReleasedNet(invoices, m)) - Sum(payouts, Withdrawn(m))
  }

  ghost predicate MerchantBooks(js: seq<Journal>, invoices: seq<Invoice>, payments: seq<Payment>, payouts: seq<Payout>) {
    forall m :: MerchantBook(js, invoices, payments, payouts, m)
  }

  /** An invoice is PAID exactly when one of its payments holds its value, and then only one does. */
  ghost predicate PaidOnce(invoices: seq<Invoice>, payments: seq<Payment>) {
    && (forall i :: 0 <= i < |invoices| ==>
          (invoices[i].status == PAID <==> exists k :: 0 <= k < |payments| && payments[k].invoice == i && Credited(payments[k])))
    && (forall j, k :: 0 <= j < k < |payments| && Credited(payments[j]) && Credited(payments[k]) ==>
          payments[j].invoice != payments[k].invoice)
  }

  /** Every invoice's snapshot conserves value. */
  ghost predicate InvoiceSane(i: Invoice) {
    && i.fees.customerTotal == i.fees.merchantNet + i.fees.platformFee
    && i.fees.customerTotal > 0 && i.fees.merchantNet >= 0 && i.fees.platformFee >= 0
  }

  ghost predicate InvoicesSane(invoices: seq<Invoice>) {
    forall k :: 0 <= k < |invoices| ==> InvoiceSane(invoices[k])
  }

  /** A payment that holds value was credited with a positive net. */
  ghost predicate NetsPositive(invoices: seq<Invoice>, payments: seq<Payment>) {
    forall k :: 0 <= k < |payments| && Credited(payments[k]) ==> MerchantNet(invoices, payments[k]) > 0
  }

  /** The journals hold in PENDING, payment by payment, the net of the VERIFIED ones and nothing else. */
  ghost predicate PendingHeld(js: seq<Journal>, invoices: seq<Invoice>, payments: seq<Payment>) {
    forall k: nat :: PendingAmount(js, k) ==
      if k < |payments| && payments[k].status == VERIFIED then MerchantNet(invoices, payments[k]) else 0
  }

  /** A journal's operation has left its mark on the rows. */
  ghost predicate OperationDone(j: Journal, payments: seq<Payment>, payouts: seq<Payout>, txs: seq<TreasuryTx>) {
    match j.operationId
    case PaymentVerified(provider, externalId) => FindPayment(payments, provider, externalId).Some?
    case PaymentReleased(k) => k < |payments| && payments[k].status == PAYMENT_RELEASED
    case PayoutQueued(k) => k < |payouts|
    case PayoutSettled(k) => k < |payouts| && payouts[k].status == SETTLED
    case PayoutFailed(k) => k < |payouts| && payouts[k].status == FAILED
    case TreasuryFunded(h) => KnownTx(txs, h)
  }

  ghost predicate OperationsDone(js: seq<Journal>, payments: seq<Payment>, payouts: seq<Payout>, txs: seq<TreasuryTx>) {
    forall j :: j in js ==> OperationDone(j, payments, payouts, txs)
  }

  ghost predicate PayoutSane(p: Payout) {
    && p.amount > 0 && p.fee >= 0 && p.gross == p.amount + p.fee
    && (p.fee > 0 ==> p.instant)
    && (p.gram.Some? ==> p.gram.value > 0)
  }

  ghost predicate PayoutsSane(ps: seq<Payout>) {
    forall k :: 0 <= k < |ps| ==> PayoutSane(ps[k])
  }

  datatype GramTotals = GramTotals(treasury: int, principal: int, networkFees: int, equity: int)

  function GramBook(js: seq<Journal>): GramTotals {
    GramTotals(Balance(js, System(TreasuryGram), AVAILABLE),
               Balance(js, System(SettlementClearingGram), AVAILABLE),
               Balance(js, System(NetworkFeeExpenseGram), AVAILABLE),
               Balance(js, System(TreasuryFundingEquity), AVAILABLE))
  }

  /** Treasury row, treasury account, funding and settled payouts tell one story. */
  ghost predicate TreasuryBooks(js: seq<Journal>, payouts: seq<Payout>, txs: seq<TreasuryTx>, confirmed: int) {
    var g := GramBook(js);
    && confirmed == g.treasury == g.equity - g.principal - g.networkFees
    && g.principal == Sum(payouts, SettledGram())
    && g.equity == Sum(txs, Funding())
    && g.networkFees >= 0
  }

  const IN_FLIGHT := {RESERVED, SIGNED, BROADCASTED, CONFIRMING, UNKNOWN}

  ghost predicate ReservationOk(payouts: seq<Payout>, r: Reservation) {
    && r.payout < |payouts|
    && (r.status == ACTIVE ==> payouts[r.payout].status in IN_FLIGHT && payouts[r.payout].gram == Some(r.amount))
    && (r.status == CONSUMED ==> payouts[r.payout].status == SETTLED && payouts[r.payout].gram == Some(r.amount))
  }

  /** A payout that can settle, or has, was reserved at some time. */
  ghost predicate PayoutBacked(p: Payout, k: nat, rs: seq<Reservation>) {
    p.status in IN_FLIGHT || p.status == SETTLED ==> p.gram.Some? && HasReservation(rs, k)
  }

  ghost predicate ReservationsMatch(payouts: seq<Payout>, rs: seq<Reservation>) {
    && (forall k :: 0 <= k < |rs| ==> ReservationOk(payouts, rs[k]))
    && (forall j, k :: 0 <= j < k < |rs| && rs[j].status == ACTIVE && rs[k].status == ACTIVE ==> rs[j].payout != rs[k].payout)
    && (forall k :: 0 <= k < |payouts| ==> PayoutBacked(payouts[k], k, rs))
  }

  predicate HasConsumed(rs: seq<Reservation>, payout: nat) {
    exists k :: 0 <= k < |rs| && rs[k].payout == payout && rs[k].status == CONSUMED
  }

  /** Principal of the first `n` payouts that settled when their reservation was no longer ACTIVE. */
  function UnreservedPrincipal(payouts: seq<Payout>, rs: seq<Reservation>, n: nat): int
    requires n <= |payouts|
  {
    if n == 0 then 0
    else UnreservedPrincipal(payouts, rs, n - 1)
         + if HasConsumed(rs, n - 1) then 0 else SettledGram()(payouts[n - 1])
  }

  /** Whatever is ACTIVE, with the safety reserve, is covered once fees and unreserved settlements are added back. */
  ghost predicate Liquid(js: seq<Journal>, payouts: seq<Payout>, rs: seq<Reservation>, confirmed: int, safety: int) {
    (exists k :: 0 <= k < |rs| && rs[k].status == ACTIVE) ==>
      Sum(rs, ActiveAmount()) + safety
      <= confirmed + GramBook(js).networkFees + UnreservedPrincipal(payouts, rs, |payouts|)
  }

  ghost predicate Inv(db: Db) {
    && Sound(db.journals)
    && InvoicesSane(db.invoices)
    && Linked(db.invoices, db.payments)
    && MerchantBooks(db.journals, db.invoices, db.payments, db.payouts)
    && PaidOnce(db.invoices, db.payments)
    && NetsPositive(db.invoices, db.payments)
    && PendingHeld(db.journals, db.invoices, db.payments)
    && OperationsDone(db.journals, db.payments, db.payouts, db.treasuryTxs)
    && PayoutsSane(db.payouts)
    && TreasuryBooks(db.journals, db.payouts, db.treasuryTxs, db.confirmed)
    && ReservationsMatch(db.payouts, db.reservations)
    && Liquid(db.journals, db.payouts, db.reservations, db.confirmed, db.safety)
  }

  // ---------------------------------------------------------------------------
  // What a posted draft does to balances
  // ---------------------------------------------------------------------------

  function LineSide(l: JournalLine): int {
    (if l.credit.Some? then l.credit.value.atomic else 0) - (if l.debit.Some? then l.debit.value.atomic else 0)
  }

  function LineMoves(a: AccountId, b: Bucket): JournalLine -> int {
    (l: JournalLine) =>
      if l.account != a || l.bucket != b then 0 else if CreditNatured(a) then LineSide(l) else -LineSide(l)
  }

  function PendingLine(): JournalLine -> int {
    (l: JournalLine) => if l.bucket == PENDING then LineSide(l) else 0
  }

  lemma {:induction false} EntriesMoveAsLines(ls: seq<JournalLine>, a: AccountId, b: Bucket)
    requires LinesError(ls).None?
    ensures Sum(Entries(ls), Moves(a, b)) == Sum(ls, LineMoves(a, b))
    ensures Sum(Entries(ls), PendingEntry()) == Sum(ls, PendingLine())
  {
    if ls != [] {
      var n := |ls| - 1;
      EntriesMoveAsLines(ls[..n], a, b);
      SumAppend(Entries(ls[..n]), ToEntry(ls[n]), Moves(a, b));
      SumAppend(Entries(ls[..n]), ToEntry(ls[n]), PendingEntry());
    }
  }

  /** A created journal is the old ledger plus one journal that moves each bucket by its lines. */
  lemma PostedMoves(js: seq<Journal>, d: JournalDraft)
    requires Posting(js, d).result.Posted? && Posting(js, d).result.created
    ensures Posting(js, d).journals == js + [Journal(d.reference, d.operationId.value, Entries(d.lines))]
    ensures LinesError(d.lines).None?
    ensures forall a, b :: Balance(Posting(js, d).journals, a, b) == Balance(js, a, b) + Sum(d.lines, LineMoves(a, b))
    ensures forall k: nat :: PendingAmount(Posting(js, d).journals, k) ==
              PendingAmount(js, k) + if d.reference == PaymentRef(k) then Sum(d.lines, PendingLine()) else 0
  {
    var j := Journal(d.reference, d.operationId.value, Entries(d.lines));
    forall a, b ensures Balance(js + [j], a, b) == Balance(js, a, b) + Sum(d.lines, LineMoves(a, b)) {
      BalanceAfter(js, j, a, b);
      EntriesMoveAsLines(d.lines, a, b);
    }
    forall k: nat ensures PendingAmount(js + [j], k) ==
      PendingAmount(js, k) + if d.reference == PaymentRef(k) then Sum(d.lines, PendingLine()) else 0
    {
      SumAppend(js, j, PendingOf(k));
      EntriesMoveAsLines(d.lines, Merchant(0), PENDING);
    }
  }

  /** The accounts the invariant speaks of. */
  predicate Tracked(a: AccountId) {
    a.Merchant? || a == System(TreasuryGram) || a == System(SettlementClearingGram)
    || a == System(NetworkFeeExpenseGram) || a == System(TreasuryFundingEquity)
  }

  lemma CreditLinesMove(i: Invoice, booked: int, a: AccountId, b: Bucket)
    requires Tracked(a)
    ensures Sum(CreditLines(i, booked), LineMoves(a, b)) ==
      if a == Merchant(i.merchant) && b == PENDING then i.fees.merchantNet else 0
    ensures Sum(CreditLines(i, booked), PendingLine()) == i.fees.merchantNet
  {
    var base := [Debit(System(ProviderClearingToman), Toman(i.fees.customerTotal)),
                 Credit(Merchant(i.merchant), Toman(i.fees.merchantNet), PENDING)];
    var revenue := if i.fees.platformFee > 0 then [Credit(System(PlatformRevenueToman), Toman(i.fees.platformFee))] else [];
    var provider := if booked > 0
      then [Debit(System(PlatformExpenseToman), Toman(booked)), Credit(System(ProviderClearingToman), Toman(booked))] else [];
    OptionalSums(base, revenue, provider, LineMoves(a, b));
    OptionalSums(base, revenue, provider, PendingLine());
  }

  lemma OptionalSums(base: seq<JournalLine>, one: seq<JournalLine>, two: seq<JournalLine>, f: JournalLine -> int)
    requires |base| == 2 && |one| <= 1 && (|two| == 0 || |two| == 2)
    ensures Sum(base + one + two, f) ==
      f(base[0]) + f(base[1]) + (if |one| == 1 then f(one[0]) else 0) + (if |two| == 2 then f(two[0]) + f(two[1]) else 0)
  {
    SumConcat(base + one, two, f);
    SumConcat(base, one, f);
    assert base == [base[0], base[1]];
    Sum2(base[0], base[1], f);
    if |one| == 1 {
      assert one == [one[0]];
      Sum1(one[0], f);
    }
    if |two| == 2 {
      assert two == [two[0], two[1]];
      Sum2(two[0], two[1], f);
    }
  }

  lemma ReleaseLinesMove(m: nat, amount: int, a: AccountId, b: Bucket)
    requires Tracked(a)
    ensures Sum(ReleaseLines(m, amount), LineMoves(a, b)) ==
      if a != Merchant(m) then 0 else if b == PENDING then -amount else if b == AVAILABLE then amount else 0
    ensures Sum(ReleaseLines(m, amount), PendingLine()) == -amount
  {
    var ls := ReleaseLines(m, amount);
    Sum2(ls[0], ls[1], LineMoves(a, b));
    Sum2(ls[0], ls[1], PendingLine());
  }

  lemma QueueLinesMove(m: nat, gross: int, net: int, fee: int, a: AccountId, b: Bucket)
    requires Tracked(a)
    ensures Sum(QueueLines(m, gross, net, fee), LineMoves(a, b)) ==
      if a != Merchant(m) then 0 else if b == AVAILABLE then -gross else if b == SETTLING then net else 0
  {
    var base := [Debit(Merchant(m), Toman(gross), AVAILABLE), Credit(Merchant(m), Toman(net), SETTLING)];
    var extra := if fee > 0 then [Credit(System(InstantWithdrawalRevenueToman), Toman(fee))] else [];
    OptionalSums(base, extra, [], LineMoves(a, b));
    assert base + extra + [] == QueueLines(m, gross, net, fee);
  }

  lemma SettleLinesMove(p: Payout, gram: int, fee: int, a: AccountId, b: Bucket)
    requires Tracked(a)
    ensures Sum(SettleLines(p, gram, fee), LineMoves(a, b)) ==
      if a == Merchant(p.merchant) && b == SETTLING then -p.amount
      else if a == System(SettlementClearingGram) && b == AVAILABLE then gram
      else if a == System(NetworkFeeExpenseGram) && b == AVAILABLE && fee > 0 then fee
      else if a == System(TreasuryGram) && b == AVAILABLE then -(gram + fee)
      else 0
  {
    SettleSum(p, gram, fee, LineMoves(a, b));
  }

  lemma SettleSum(p: Payout, gram: int, fee: int, f: JournalLine -> int)
    ensures Sum(SettleLines(p, gram, fee), f) ==
      f(Debit(Merchant(p.merchant), Toman(p.amount), SETTLING)) + f(Credit(System(SettlementClearingToman), Toman(p.amount)))
      + f(Debit(System(SettlementClearingGram), Gram(gram)))
      + (if fee > 0 then f(Debit(System(NetworkFeeExpenseGram), Gram(fee))) else 0)
      + f(Credit(System(TreasuryGram), Gram(gram + fee)))
  {
    var x, y, z := Debit(Merchant(p.merchant), Toman(p.amount), SETTLING), Credit(System(SettlementClearingToman), Toman(p.amount)),
                   Debit(System(SettlementClearingGram), Gram(gram));
    var base := [x, y, z];
    var extra := if fee > 0 then [Debit(System(NetworkFeeExpenseGram), Gram(fee))] else [];
    var last := [Credit(System(TreasuryGram), Gram(gram + fee))];
    assert SettleLines(p, gram, fee) == base + extra + last;
    SumConcat(base + extra, last, f);
    SumConcat(base, extra, f);
    Sum3(x, y, z, f);
    Sum1(last[0], f);
    if fee > 0 {
      Sum1(extra[0], f);
    }
  }

  lemma FailLinesMove(p: Payout, a: AccountId, b: Bucket)
    requires Tracked(a)
    ensures Sum(FailLines(p), LineMoves(a, b)) ==
      if a != Merchant(p.merchant) then 0
      else if b == SETTLING then -p.amount
      else if b == AVAILABLE then p.amount + (if p.instant && p.fee > 0 then p.fee else 0)
      else 0
  {
    var base := [Debit(Merchant(p.merchant), Toman(p.amount), SETTLING), Credit(Merchant(p.merchant), Toman(p.amount), AVAILABLE)];
    var extra := if p.instant && p.fee > 0
      then [Debit(System(InstantWithdrawalRevenueToman), Toman(p.fee)), Credit(Merchant(p.merchant), Toman(p.fee), AVAILABLE)] else [];
    OptionalSums(base, [], extra, LineMoves(a, b));
    assert base + [] + extra == FailLines(p);
  }

  lemma FundLinesMove(amount: int, a: AccountId, b: Bucket)
    requires Tracked(a)
    ensures Sum(FundLines(amount), LineMoves(a, b)) ==
      if (a == System(TreasuryGram) || a == System(TreasuryFundingEquity)) && b == AVAILABLE then amount else 0
  {
    var ls := FundLines(amount);
    Sum2(ls[0], ls[1], LineMoves(a, b));
  }

  function Side(c: Currency, debit: bool): JournalLine -> int {
    (l: JournalLine) =>
      var side := if debit then l.debit else l.credit;
      if side.Some? && side.value.currency == c then side.value.atomic else 0
  }

  predicate OneSidedLine(l: JournalLine) { LineError(l).None? && (l.debit.None? || l.credit.None?) }

  lemma LineSides(l: JournalLine, c: Currency)
    requires LineError(l).None?
    ensures DebitIn(c)(ToEntry(l)) == Side(c, true)(l) && CreditIn(c)(ToEntry(l)) == Side(c, false)(l)
  {
  }

  lemma {:induction false} EntriesSideAsLines(ls: seq<JournalLine>, c: Currency)
    requires LinesError(ls).None?
    ensures Sum(Entries(ls), DebitIn(c)) == Sum(ls, Side(c, true))
    ensures Sum(Entries(ls), CreditIn(c)) == Sum(ls, Side(c, false))
  {
    if ls != [] {
      var n := |ls| - 1;
      LineSides(ls[n], c);
      EntriesSideAsLines(ls[..n], c);
      SumAppend(Entries(ls[..n]), ToEntry(ls[n]), DebitIn(c));
      SumAppend(Entries(ls[..n]), ToEntry(ls[n]), CreditIn(c));
    }
  }

  /** A settlement with a negative network fee does not balance. */
  lemma SettledFeeNotNegative(js: seq<Journal>, d: JournalDraft, p: Payout, gram: int, fee: int)
    requires Posting(js, d).result.Posted? && d.lines == SettleLines(p, gram, fee)
    ensures fee >= 0
  {
    var ls := SettleLines(p, gram, fee);
    assert LinesError(ls).None? && Balanced(Entries(ls));
    EntriesOneSided(ls);
    EntriesSideAsLines(ls, GRAM);
    SettleSum(p, gram, fee, Side(GRAM, true));
    SettleSum(p, gram, fee, Side(GRAM, false));
    assert Sum(Entries(ls), DebitIn(GRAM)) == Sum(Entries(ls), CreditIn(GRAM));
  }

  // ---------------------------------------------------------------------------
  // What one transaction books
  // ---------------------------------------------------------------------------

  /** How far bucket `b` of account `a` moved. */
  function Moved(before: Db, after: Db, a: AccountId, b: Bucket): int {
    Balance(after.journals, a, b) - Balance(before.journals, a, b)
  }

  /** One journal more, for this operation. */
  ghost predicate Booked(before: Db, after: Db, reference: Reference, operation: OperationId) {
    && |after.journals| == |before.journals| + 1 && after.journals[..|before.journals|] == before.journals
    && after.journals[|before.journals|].reference == reference
    && after.journals[|before.journals|].operationId == operation
  }
}
