/**
 The tables of the gateway as values, and what each database transaction of the payment and payout use cases
 does to them. Row ids are positions in their table; a refused transaction leaves every table as it was.
 */
module Pipeline {
  import opened Basics
  import opened MoneyMath
  import opened Sums
  import opened Ledger
  import opened Fees

  // ---------------------------------------------------------------------------
  // Tables
  // ---------------------------------------------------------------------------

  datatype InvoiceStatus = INVOICE_CREATED | PAID | INVOICE_EXPIRED | CANCELLED

  datatype PaymentStatus = VERIFIED | PAYMENT_RELEASED | MISMATCH | PAYMENT_FAILED | PAYMENT_UNKNOWN

  datatype PayoutStatus =
    | CREATED | QUEUED | RATE_LOCKED | WAITING_LIQUIDITY | RESERVED | SIGNED
    | BROADCASTED | CONFIRMING | SETTLED | FAILED | UNKNOWN

  datatype ReservationStatus = ACTIVE | CONSUMED | RELEASED | EXPIRED

  datatype Invoice = Invoice(
    merchant: nat,
    fees: FeeBreakdown,
    status: InvoiceStatus,
    expiresAt: int,
    payToman: Option<int>,
    payRial: Option<int>)

  datatype Payment = Payment(
    invoice: nat,
    merchant: nat,
    provider: string,
    externalId: string,
    status: PaymentStatus,
    releaseAt: Option<int>,
    held: bool)

  datatype Payout = Payout(
    merchant: nat,
    amount: int,
    gross: int,
    fee: int,
    instant: bool,
    gram: Option<int>,
    destination: string,
    network: string,
    status: PayoutStatus,
    signingReference: Option<string>,
    txHash: Option<string>,
    attempts: nat,
    updatedAt: int)

  datatype Reservation = Reservation(payout: nat, amount: int, status: ReservationStatus, expiresAt: int)

  datatype TreasuryTx = TreasuryTx(incoming: bool, amount: int, txHash: string)

  /** The treasury row is the pair (confirmed, safety). */
  datatype Db = Db(
    journals: seq<Journal>,
    invoices: seq<Invoice>,
    payments: seq<Payment>,
    payouts: seq<Payout>,
    reservations: seq<Reservation>,
    confirmed: int,
    safety: int,
    treasuryTxs: seq<TreasuryTx>)

  datatype Error =
    | NotFound
    | AmountNotPositive
    | AmountTooLarge
    | InvalidExpiry
    | MerchantNotActive
    | FeeRefused(fee: FeeError)
    | InvoiceNotCancellable
    | InvoiceHasPayment
    | MissingExternalId
    | OrderIdMismatch
    | InvoiceNotPayable
    | InvalidPaidAt
    | NothingPending
    | DuplicateOperation
    | NotPosted(post: PostError)
    | NotInExpectedState
    | QuoteExpired
    | BadQuote(money: MoneyError)
    | AmountTooSmall
    | RateNotLocked
    | RateTooLarge
    | ReservationExists
    | ReservationMissingOrExpired
    | NetworkMismatch
    | WalletInvalid
    | AmountMismatch
    | DestinationMismatch
    | AssetMismatch
    | NotConfirmed
    | TreasuryOverdrawn
    | AlreadySettled
    | UnknownNoBlindRetry
    | NegativePaidAmount
    | ReleaseBeforePaid
    | MerchantInFlight
    | SignatureMissing
    | TxHashTaken

  /** What a transaction leaves behind and what it returns. */
  datatype Step<+R> = Step(db: Db, result: Result<R, Error>)

  const MAX_TOMAN := 10_000_000_000_000_000_000_000_000_000
  /** The rate column holds 22 digits before the point and 18 after it. */
  const RATE_LIMIT := 10_000_000_000_000_000_000_000_000_000_000_000_000_000

  const MAX_GRAM := 100_000_000_000_000_000_000_000_000_000_000_000_000

  function Toman(x: int): Money { Money(x, TOMAN) }

  function Gram(x: int): Money { Money(x, GRAM) }

  predicate HashTaken(ps: seq<Payout>, id: nat, txHash: Option<string>) {
    txHash.Some? && exists k :: 0 <= k < |ps| && k != id && ps[k].txHash == txHash
  }

  /** What the table refuses to store: a sent payout without a signature, a transaction hash another payout carries. */
  function RowError(ps: seq<Payout>, id: nat, row: Payout): Option<Error> {
    if row.status in {SIGNED, BROADCASTED, CONFIRMING, SETTLED} && row.signingReference.None? then Some(SignatureMissing)
    else if HashTaken(ps, id, row.txHash) then Some(TxHashTaken)
    else None
  }

  /** The guarded row update shared by every payout step. */
  function Transition(ps: seq<Payout>, id: nat, from: set<PayoutStatus>, row: Payout, to: PayoutStatus)
    : Result<seq<Payout>, Error>
    requires id < |ps|
  {
    if ps[id].status !in from then Err(NotInExpectedState)
    else match RowError(ps, id, row.(status := to))
         case Some(e) => Err(e)
         case None => Ok(ps[id := row.(status := to)])
  }

  // ---------------------------------------------------------------------------
  // Invoices
  // ---------------------------------------------------------------------------

  datatype InvoiceRequest = InvoiceRequest(
    merchant: nat, merchantActive: bool, base: int, mode: FeeMode, rateBps: nat,
    expiresIn: int, now: int, payToman: Option<int>, payRial: Option<int>)

  function CreateInvoice(db: Db, q: InvoiceRequest): Step<nat> {
    if q.base <= 0 then Step(db, Err(AmountNotPositive))
    else if q.base > MAX_TOMAN then Step(db, Err(AmountTooLarge))
    else if q.expiresIn < 60 || q.expiresIn > 30 * 24 * 3600 then Step(db, Err(InvalidExpiry))
    else if !q.merchantActive then Step(db, Err(MerchantNotActive))
    else match CalculateFees(Toman(q.base), q.mode, q.rateBps)
         case Err(e) => Step(db, Err(FeeRefused(e)))
         case Ok(fees) =>
           var row := Invoice(q.merchant, fees, INVOICE_CREATED, q.now + q.expiresIn, q.payToman, q.payRial);
           Step(db.(invoices := db.invoices + [row]), Ok(|db.invoices|))
  }

  predicate Credited(p: Payment) { p.status == VERIFIED || p.status == PAYMENT_RELEASED }

  /** True when the invoice was cancelled before this call. */
  function CancelInvoice(db: Db, merchant: nat, id: nat): Step<bool> {
    if id >= |db.invoices| || db.invoices[id].merchant != merchant then Step(db, Err(NotFound))
    else if db.invoices[id].status == CANCELLED then Step(db, Ok(true))
    else if db.invoices[id].status != INVOICE_CREATED then Step(db, Err(InvoiceNotCancellable))
    else if exists k :: 0 <= k < |db.payments| && db.payments[k].invoice == id && db.payments[k].status == VERIFIED
    then Step(db, Err(InvoiceHasPayment))
    else Step(db.(invoices := db.invoices[id := db.invoices[id].(status := CANCELLED)]), Ok(false))
  }

  function AfterExpiry(i: Invoice, now: int): Invoice {
    if i.status == INVOICE_CREATED && i.expiresAt < now then i.(status := INVOICE_EXPIRED) else i
  }

  function ExpireInvoices(db: Db, now: int): Step<()> {
    Step(db.(invoices := seq(|db.invoices|, i requires 0 <= i < |db.invoices| => AfterExpiry(db.invoices[i], now))), Ok(()))
  }

  // ---------------------------------------------------------------------------
  // Finalize and release a payment
  // ---------------------------------------------------------------------------

  datatype ProviderStatus = PROVIDER_PAID | PROVIDER_FAILED | PROVIDER_PENDING | PROVIDER_UNKNOWN

  datatype RawRial = NotReported | Unparsable | Rial(value: int)

  /** `paidAt` is None when the timestamp does not parse; `risky` is the outcome of scoring and match review. */
  datatype Evidence = Evidence(
    provider: string,
    externalId: string,
    orderId: Option<nat>,
    status: ProviderStatus,
    rawRial: RawRial,
    paid: int,
    paidAt: Option<int>,
    reportedFee: Option<nat>,
    risky: bool)

  datatype FinalizeResult = FinalizeResult(payment: nat, status: PaymentStatus, credited: bool)

  function FindPayment(ps: seq<Payment>, provider: string, externalId: string): (k: Option<nat>)
    ensures k.Some? ==> k.value < |ps| && ps[k.value].provider == provider && ps[k.value].externalId == externalId
    ensures k.None? ==> forall i :: 0 <= i < |ps| ==> !(ps[i].provider == provider && ps[i].externalId == externalId)
  {
    if ps == [] then None
    else match FindPayment(ps[..|ps| - 1], provider, externalId)
         case Some(k) => Some(k)
         case None =>
           var p := ps[|ps| - 1];
           if p.provider == provider && p.externalId == externalId then Some(|ps| - 1) else None
  }

  predicate RialDiffers(raw: RawRial, expected: int) {
    match raw
    case NotReported => false
    case Unparsable => true
    case Rial(x) => x != expected
  }

  function NewPayment(inv: nat, i: Invoice, ev: Evidence, status: PaymentStatus, releaseAt: Option<int>): Payment {
    Payment(inv, i.merchant, ev.provider, ev.externalId, status, releaseAt, status == VERIFIED && ev.risky)
  }

  /** Record a payment that credits nothing; of these only a mismatch stores the amount. */
  function Uncredited(db: Db, inv: nat, ev: Evidence, status: PaymentStatus): Step<FinalizeResult>
    requires inv < |db.invoices|
  {
    if status == MISMATCH && ev.paid < 0 then Step(db, Err(NegativePaidAmount))
    else Step(db.(payments := db.payments + [NewPayment(inv, db.invoices[inv], ev, status, None)]),
              Ok(FinalizeResult(|db.payments|, status, false)))
  }

  /** The lines that credit a verified payment: clearing, merchant, revenue, then the provider's own cut. */
  function CreditLines(i: Invoice, booked: int): seq<JournalLine> {
    [Debit(System(ProviderClearingToman), Toman(i.fees.customerTotal)),
     Credit(Merchant(i.merchant), Toman(i.fees.merchantNet), PENDING)]
    + (if i.fees.platformFee > 0 then [Credit(System(PlatformRevenueToman), Toman(i.fees.platformFee))] else [])
    + (if booked > 0
       then [Debit(System(PlatformExpenseToman), Toman(booked)), Credit(System(ProviderClearingToman), Toman(booked))]
       else [])
  }

  ghost function FinalizePayment(db: Db, inv: nat, ev: Evidence, holdTime: int, providerBps: nat): Step<FinalizeResult> {
    if ev.externalId == "" then Step(db, Err(MissingExternalId))
    else if inv >= |db.invoices| then Step(db, Err(NotFound))
    else
      var i := db.invoices[inv];
      match FindPayment(db.payments, ev.provider, ev.externalId)
      case Some(k) => Step(db, Ok(FinalizeResult(k, db.payments[k].status, false)))
      case None =>
        if ev.orderId.Some? && ev.orderId.value != inv then Step(db, Err(OrderIdMismatch))
        else if ev.status != PROVIDER_PAID then
          Uncredited(db, inv, ev, if ev.status == PROVIDER_FAILED then PAYMENT_FAILED else PAYMENT_UNKNOWN)
        else if i.payRial.Some? && RialDiffers(ev.rawRial, i.payRial.value) then Uncredited(db, inv, ev, MISMATCH)
        else if ev.paid != (if i.payToman.Some? then i.payToman.value else i.fees.customerTotal) then
          Uncredited(db, inv, ev, MISMATCH)
        else if i.status != INVOICE_CREATED then Step(db, Err(InvoiceNotPayable))
        else if ev.paidAt.None? then Step(db, Err(InvalidPaidAt))
        else if ev.paidAt.value > i.expiresAt then Uncredited(db, inv, ev, MISMATCH)
        else CreditPayment(db, inv, ev, holdTime, providerBps)
  }

  ghost function CreditPayment(db: Db, inv: nat, ev: Evidence, holdTime: int, providerBps: nat): Step<FinalizeResult>
    requires inv < |db.invoices| && ev.paidAt.Some?
  {
    match CalculateProviderCost(Toman(db.invoices[inv].fees.customerTotal), providerBps)
    case Err(e) => Step(db, Err(FeeRefused(e)))
    case Ok(expectedFee) =>
      if ev.paid < 0 then Step(db, Err(NegativePaidAmount))
      else if holdTime < 0 then Step(db, Err(ReleaseBeforePaid))
      else
        PostCredit(db, inv, ev, ev.paidAt.value + holdTime, if ev.reportedFee.Some? then ev.reportedFee.value else expectedFee)
  }

  function CreditDraft(db: Db, inv: nat, ev: Evidence, booked: int): JournalDraft
    requires inv < |db.invoices|
  {
    JournalDraft(PaymentRef(|db.payments|), Some(PaymentVerified(ev.provider, ev.externalId)), CreditLines(db.invoices[inv], booked))
  }

  ghost function PostCredit(db: Db, inv: nat, ev: Evidence, releaseAt: int, booked: int): Step<FinalizeResult>
    requires inv < |db.invoices|
  {
    var i := db.invoices[inv];
    var posting := Posting(db.journals, CreditDraft(db, inv, ev, booked));
    match posting.result
    case Refused(e) => Step(db, Err(NotPosted(e)))
    case Posted(_, created) =>
      if !created then Step(db, Err(DuplicateOperation))
      else Step(db.(journals := posting.journals,
                    payments := db.payments + [NewPayment(inv, i, ev, VERIFIED, Some(releaseAt))],
                    invoices := db.invoices[inv := i.(status := PAID)]),
                Ok(FinalizeResult(|db.payments|, VERIFIED, true)))
  }

  /** Staff place and lift holds between the other steps. */
  function SetHold(db: Db, id: nat, held: bool): Step<()> {
    if id >= |db.payments| then Step(db, Err(NotFound))
    else Step(db.(payments := db.payments[id := db.payments[id].(held := held)]), Ok(()))
  }

  function PendingEntry(): Entry -> int {
    (e: Entry) => if e.bucket == PENDING then e.credit - e.debit else 0
  }

  function PendingOf(payment: nat): Journal -> int {
    (j: Journal) => if j.reference == PaymentRef(payment) then Sum(j.entries, PendingEntry()) else 0
  }

  /** What the journals still hold in PENDING for one payment. */
  function PendingAmount(js: seq<Journal>, payment: nat): int { Sum(js, PendingOf(payment)) }

  function ReleaseLines(merchant: nat, amount: int): seq<JournalLine> {
    [Debit(Merchant(merchant), Toman(amount), PENDING), Credit(Merchant(merchant), Toman(amount), AVAILABLE)]
  }

  /** The released amount, or None when the payment is not eligible now. */
  ghost function ReleasePayment(db: Db, id: nat, now: int, merchantActive: bool): Step<Option<int>> {
    if id >= |db.payments| || db.payments[id].status != VERIFIED then Step(db, Ok(None))
    else
      var p := db.payments[id];
      if p.releaseAt.None? || p.releaseAt.value > now then Step(db, Ok(None))
      else if !merchantActive || p.held then Step(db, Ok(None))
      else
        var amount := PendingAmount(db.journals, id);
        if amount <= 0 then Step(db, Err(NothingPending))
        else
          var posting := Posting(db.journals, JournalDraft(PaymentRef(id), Some(PaymentReleased(id)),
            ReleaseLines(p.merchant, amount)));
          match posting.result
          case Refused(e) => Step(db, Err(NotPosted(e)))
          case Posted(_, created) =>
            if !created then Step(db, Err(DuplicateOperation))
            else Step(db.(journals := posting.journals, payments := db.payments[id := p.(status := PAYMENT_RELEASED)]),
                      Ok(Some(amount)))
  }

  // ---------------------------------------------------------------------------
  // Queue, lock and reserve
  // ---------------------------------------------------------------------------

  datatype Wallet = Wallet(address: string, network: string, holdUntil: Option<int>)

  datatype QueueRequest = QueueRequest(
    merchant: nat, merchantActive: bool, instant: bool, autoPayout: bool, requested: Option<int>,
    wallet: Option<Wallet>, minPayout: int, maxPayout: int, now: int)

  datatype SkipReason =
    | NotActive | AutoPayoutDisabled | AlreadyInFlight | WalletNotActive | WalletSecurityHold
    | InsufficientBalance | BelowMinimum | NetNonPositive

  datatype QueueResult = Skipped(reason: SkipReason) | Queued(payout: nat, net: int, gross: int, fee: int)

  /** The statuses the queue step looks for; SIGNED and CONFIRMING are not among them. */
  const QUEUE_IN_FLIGHT := {CREATED, QUEUED, RATE_LOCKED, WAITING_LIQUIDITY, RESERVED, BROADCASTED, UNKNOWN}

  predicate HasInFlight(ps: seq<Payout>, merchant: nat) {
    exists k :: 0 <= k < |ps| && ps[k].merchant == merchant && ps[k].status in QUEUE_IN_FLIGHT
  }

  function QueueLines(merchant: nat, gross: int, net: int, fee: int): seq<JournalLine> {
    [Debit(Merchant(merchant), Toman(gross), AVAILABLE), Credit(Merchant(merchant), Toman(net), SETTLING)]
    + (if fee > 0 then [Credit(System(InstantWithdrawalRevenueToman), Toman(fee))] else [])
  }

  ghost function QueuePayout(db: Db, q: QueueRequest): Step<QueueResult> {
    if !q.merchantActive then Step(db, Ok(Skipped(NotActive)))
    else if !q.instant && !q.autoPayout then Step(db, Ok(Skipped(AutoPayoutDisabled)))
    else if HasInFlight(db.payouts, q.merchant) then Step(db, Ok(Skipped(AlreadyInFlight)))
    else if q.wallet.None? then Step(db, Ok(Skipped(WalletNotActive)))
    else if q.wallet.value.holdUntil.Some? && q.wallet.value.holdUntil.value > q.now then
      Step(db, Ok(Skipped(WalletSecurityHold)))
    else
      var available := Balance(db.journals, Merchant(q.merchant), AVAILABLE);
      if q.requested.Some? && q.requested.value > available then Step(db, Ok(Skipped(InsufficientBalance)))
      else
        var wanted := if q.requested.Some? then q.requested.value else available;
        if wanted < q.minPayout then Step(db, Ok(Skipped(BelowMinimum)))
        else
          var gross := if wanted > q.maxPayout then q.maxPayout else wanted;
          if gross < 0 then Step(db, Err(AmountNotPositive))
          else if gross > MAX_TOMAN then Step(db, Err(AmountTooLarge))
          else
            var fee := if q.instant then Rounded(gross * 2, 100, FLOOR) else 0;
            if gross - fee <= 0 then Step(db, Ok(Skipped(NetNonPositive)))
            else InsertPayout(db, q.merchant, q.instant, gross, fee, q.wallet.value, q.now)
  }

  predicate Terminal(s: PayoutStatus) { s == SETTLED || s == FAILED }

  /** What the table's own index looks for: it admits one unfinished payout a merchant. */
  predicate HasUnfinished(ps: seq<Payout>, merchant: nat) {
    exists k :: 0 <= k < |ps| && ps[k].merchant == merchant && !Terminal(ps[k].status)
  }

  ghost function InsertPayout(db: Db, merchant: nat, instant: bool, gross: int, fee: int, w: Wallet, now: int): Step<QueueResult> {
    if HasUnfinished(db.payouts, merchant) then Step(db, Err(MerchantInFlight))
    else PostPayout(db, Payout(merchant, gross - fee, gross, fee, instant, None, w.address, w.network, QUEUED, None, None, 0, now))
  }

  ghost function PostPayout(db: Db, row: Payout): Step<QueueResult> {
    var id := |db.payouts|;
    var posting := Posting(db.journals,
      JournalDraft(PayoutRef(id), Some(PayoutQueued(id)), QueueLines(row.merchant, row.gross, row.amount, row.fee)));
    match posting.result
    case Refused(e) => Step(db, Err(NotPosted(e)))
    case Posted(_, created) =>
      if !created then Step(db, Err(DuplicateOperation))
      else Step(db.(journals := posting.journals, payouts := db.payouts + [row]), Ok(Queued(id, row.amount, row.gross, row.fee)))
  }

  function LockRate(db: Db, id: nat, quote: string, source: string, expired: bool, now: int): Step<int> {
    if id >= |db.payouts| then Step(db, Err(NotFound))
    else
      var p := db.payouts[id];
      if p.status != QUEUED && p.status != WAITING_LIQUIDITY then Step(db, Err(NotInExpectedState))
      else if expired then Step(db, Err(QuoteExpired))
      else match RateOf(quote, source)
           case Err(e) => Step(db, Err(BadQuote(e)))
           case Ok(rate) =>
             var gram := NanoGram(p.amount, rate, FLOOR);
             if gram <= 0 then Step(db, Err(AmountTooSmall))
             else if gram > MAX_GRAM then Step(db, Err(AmountTooLarge))
             else if rate.scaled >= RATE_LIMIT then Step(db, Err(RateTooLarge))
             else Step(db.(payouts := db.payouts[id := p.(gram := Some(gram), status := RATE_LOCKED, updatedAt := now)]), Ok(gram))
  }

  datatype ReserveResult = Reserved(reservation: nat, required: int) | Waiting(required: int, spendable: int)

  function ActiveAmount(): Reservation -> int {
    (r: Reservation) => if r.status == ACTIVE then r.amount else 0
  }

  predicate HasActive(rs: seq<Reservation>, payout: nat) {
    exists k :: 0 <= k < |rs| && rs[k].payout == payout && rs[k].status == ACTIVE
  }

  function ReserveLiquidity(db: Db, id: nat, now: int, ttl: int): Step<ReserveResult> {
    if id >= |db.payouts| then Step(db, Err(NotFound))
    else
      var p := db.payouts[id];
      if p.status != RATE_LOCKED then Step(db, Err(NotInExpectedState))
      else if p.gram.None? then Step(db, Err(RateNotLocked))
      else
        var required := p.gram.value;
        var spendable := db.confirmed - Sum(db.reservations, ActiveAmount()) - db.safety;
        if spendable < required then
          Step(db.(payouts := db.payouts[id := p.(status := WAITING_LIQUIDITY, updatedAt := now)]), Ok(Waiting(required, spendable)))
        else if HasActive(db.reservations, id) then Step(db, Err(ReservationExists))
        else Step(db.(payouts := db.payouts[id := p.(status := RESERVED, updatedAt := now)],
                      reservations := db.reservations + [Reservation(id, required, ACTIVE, now + ttl)]),
                  Ok(Reserved(|db.reservations|, required)))
  }

  // ---------------------------------------------------------------------------
  // Sign and broadcast
  // ---------------------------------------------------------------------------

  /** The first ACTIVE, unexpired reservation of a payout. */
  function FindActive(rs: seq<Reservation>, payout: nat, now: int): (k: Option<nat>)
    ensures k.Some? ==> k.value < |rs| && rs[k.value].payout == payout && rs[k.value].status == ACTIVE && rs[k.value].expiresAt > now
    ensures k.None? ==> forall i :: 0 <= i < |rs| ==> !(rs[i].payout == payout && rs[i].status == ACTIVE && rs[i].expiresAt > now)
  {
    if rs == [] then None
    else match FindActive(rs[..|rs| - 1], payout, now)
         case Some(k) => Some(k)
         case None =>
           var r := rs[|rs| - 1];
           if r.payout == payout && r.status == ACTIVE && r.expiresAt > now then Some(|rs| - 1) else None
  }

  datatype Signable = AlreadySigned(reference: string) | ReadyToSign(amount: int, destination: string, network: string)

  /** Phase one of signing: every guard, and nothing written. */
  function CheckSignable(db: Db, id: nat, now: int, assetIsGram: bool, network: string, addressValid: bool): Result<Signable, Error> {
    if id >= |db.payouts| then Err(NotFound)
    else
      var p := db.payouts[id];
      if p.status == SIGNED && p.signingReference.Some? then Ok(AlreadySigned(p.signingReference.value))
      else if p.status != RESERVED then Err(NotInExpectedState)
      else if p.gram.None? then Err(RateNotLocked)
      else if !assetIsGram then Err(AssetMismatch)
      else if p.network != network then Err(NetworkMismatch)
      else if !addressValid then Err(WalletInvalid)
      else match FindActive(db.reservations, id, now)
           case None => Err(ReservationMissingOrExpired)
           case Some(k) =>
             if db.reservations[k].amount != p.gram.value then Err(AmountMismatch)
             else Ok(ReadyToSign(p.gram.value, p.destination, p.network))
  }

  /** Phase three of signing. */
  function RecordSignature(db: Db, id: nat, reference: string, now: int): Step<string> {
    if id >= |db.payouts| then Step(db, Err(NotFound))
    else
      var p := db.payouts[id];
      if p.status == SIGNED && p.signingReference.Some? then Step(db, Ok(p.signingReference.value))
      else match Transition(db.payouts, id, {RESERVED}, p.(signingReference := Some(reference), updatedAt := now), SIGNED)
           case Err(e) => Step(db, Err(e))
           case Ok(ps) => Step(db.(payouts := ps), Ok(reference))
  }

  datatype Broadcastable = QueuedForOrder | Send(amount: int, destination: string, network: string)

  function PrepareBroadcast(db: Db, id: nat, now: int, gateOpen: bool, wallet: Option<Wallet>): Step<Broadcastable> {
    if id >= |db.payouts| then Step(db, Err(NotFound))
    else
      var p := db.payouts[id];
      if p.status != SIGNED then Step(db, Err(NotInExpectedState))
      else if !gateOpen then Step(db, Ok(QueuedForOrder))
      else match FindActive(db.reservations, id, now)
           case None => Step(db, Err(ReservationMissingOrExpired))
           case Some(k) =>
             if wallet.None? || wallet.value.address != p.destination || wallet.value.network != p.network then
               Step(db, Err(DestinationMismatch))
             else if p.gram != Some(db.reservations[k].amount) then Step(db, Err(AmountMismatch))
             else Step(db.(payouts := db.payouts[id := p.(attempts := p.attempts + 1, updatedAt := now)]),
                       Ok(Send(p.gram.value, p.destination, p.network)))
  }

  function RecordBroadcast(db: Db, id: nat, txHash: Option<string>, now: int): Step<()> {
    if id >= |db.payouts| then Step(db, Err(NotFound))
    else match Transition(db.payouts, id, {SIGNED}, db.payouts[id].(txHash := txHash, updatedAt := now), BROADCASTED)
         case Err(e) => Step(db, Err(e))
         case Ok(ps) => Step(db.(payouts := ps), Ok(()))
  }

  function MarkUnknown(db: Db, id: nat, now: int): Step<()> {
    if id >= |db.payouts| then Step(db, Err(NotFound))
    else match Transition(db.payouts, id, {RESERVED, SIGNED, BROADCASTED, CONFIRMING}, db.payouts[id].(updatedAt := now), UNKNOWN)
         case Err(e) => Step(db, Err(e))
         case Ok(ps) => Step(db.(payouts := ps), Ok(()))
  }

  /** Whether the payout moved. */
  function MarkConfirming(db: Db, id: nat, txHash: string, now: int): Step<bool> {
    if id >= |db.payouts| then Step(db, Ok(false))
    else match Transition(db.payouts, id, {BROADCASTED}, db.payouts[id].(txHash := Some(txHash), updatedAt := now), CONFIRMING)
         case Err(NotInExpectedState) => Step(db, Ok(false))
         case Err(e) => Step(db, Err(e))
         case Ok(ps) => Step(db.(payouts := ps), Ok(true))
  }

  // ---------------------------------------------------------------------------
  // Settle, fail, reconcile, expire, fund
  // ---------------------------------------------------------------------------

  datatype ChainEvidence = ChainEvidence(
    txHash: string, amount: int, destination: string, assetIsGram: bool, network: string,
    confirmations: int, networkFee: Option<int>)

  function EvidenceError(p: Payout, ev: ChainEvidence, required: int): Option<Error> {
    if !ev.assetIsGram then Some(AssetMismatch)
    else if ev.network != p.network then Some(NetworkMismatch)
    else if ev.destination != p.destination then Some(DestinationMismatch)
    else if ev.amount != (if p.gram.Some? then p.gram.value else 0) then Some(AmountMismatch)
    else if ev.confirmations < required then Some(NotConfirmed)
    else None
  }

  function SettleLines(p: Payout, gram: int, networkFee: int): seq<JournalLine> {
    [Debit(Merchant(p.merchant), Toman(p.amount), SETTLING),
     Credit(System(SettlementClearingToman), Toman(p.amount)),
     Debit(System(SettlementClearingGram), Gram(gram))]
    + (if networkFee > 0 then [Debit(System(NetworkFeeExpenseGram), Gram(networkFee))] else [])
    + [Credit(System(TreasuryGram), Gram(gram + networkFee))]
  }

  /** Every ACTIVE row of the payout takes the new status. */
  function Resolve(rs: seq<Reservation>, payout: nat, to: ReservationStatus): (out: seq<Reservation>)
    ensures |out| == |rs|
    ensures forall k :: 0 <= k < |rs| ==>
      out[k] == if rs[k].payout == payout && rs[k].status == ACTIVE then rs[k].(status := to) else rs[k]
  {
    seq(|rs|, k requires 0 <= k < |rs| =>
      if rs[k].payout == payout && rs[k].status == ACTIVE then rs[k].(status := to) else rs[k])
  }

  predicate HasReservation(rs: seq<Reservation>, payout: nat) {
    exists k :: 0 <= k < |rs| && rs[k].payout == payout
  }

  predicate KnownTx(txs: seq<TreasuryTx>, txHash: string) {
    exists k :: 0 <= k < |txs| && txs[k].txHash == txHash
  }

  /** Insert unless the hash is taken. */
  function InsertTx(txs: seq<TreasuryTx>, t: TreasuryTx): seq<TreasuryTx> {
    if KnownTx(txs, t.txHash) then txs else txs + [t]
  }

  function SettleTxs(txs: seq<TreasuryTx>, ev: ChainEvidence, gram: int, networkFee: int): seq<TreasuryTx> {
    var paid := InsertTx(txs, TreasuryTx(false, gram + networkFee, ev.txHash));
    if networkFee > 0 then InsertTx(paid, TreasuryTx(false, networkFee, ev.txHash + ":fee")) else paid
  }

  /** Whether this call settled the payout. */
  ghost function SettlePayout(db: Db, id: nat, ev: ChainEvidence, required: int, now: int): Step<bool> {
    if id >= |db.payouts| then Step(db, Err(NotFound))
    else
      var p := db.payouts[id];
      if p.status == SETTLED then Step(db, Ok(false))
      else if p.status !in {BROADCASTED, CONFIRMING, UNKNOWN} then Step(db, Err(NotInExpectedState))
      else if EvidenceError(p, ev, required).Some? then Step(db, Err(EvidenceError(p, ev, required).value))
      else
        PostSettlement(db, id, ev, if p.gram.Some? then p.gram.value else 0, if ev.networkFee.Some? then ev.networkFee.value else 0, now)
  }

  function SettleDraft(p: Payout, id: nat, gram: int, networkFee: int): JournalDraft {
    JournalDraft(PayoutRef(id), Some(PayoutSettled(id)), SettleLines(p, gram, networkFee))
  }

  ghost function PostSettlement(db: Db, id: nat, ev: ChainEvidence, gram: int, networkFee: int, now: int): Step<bool>
    requires id < |db.payouts|
  {
    var p := db.payouts[id];
    var posting := Posting(db.journals, SettleDraft(p, id, gram, networkFee));
    match posting.result
    case Refused(e) => Step(db, Err(NotPosted(e)))
    case Posted(_, created) =>
      if !created then Step(db, Ok(false))
      else
        var linked := HasReservation(db.reservations, id);
        var row := p.(status := SETTLED, txHash := Some(ev.txHash), updatedAt := now);
        if linked && db.confirmed < gram + networkFee then Step(db, Err(TreasuryOverdrawn))
        else if RowError(db.payouts, id, row).Some? then Step(db, Err(RowError(db.payouts, id, row).value))
        else Step(db.(journals := posting.journals,
                      payouts := db.payouts[id := row],
                      reservations := Resolve(db.reservations, id, CONSUMED),
                      confirmed := if linked then db.confirmed - (gram + networkFee) else db.confirmed,
                      treasuryTxs := if linked then SettleTxs(db.treasuryTxs, ev, gram, networkFee) else db.treasuryTxs),
                  Ok(true))
  }

  function FailLines(p: Payout): seq<JournalLine> {
    [Debit(Merchant(p.merchant), Toman(p.amount), SETTLING), Credit(Merchant(p.merchant), Toman(p.amount), AVAILABLE)]
    + (if p.instant && p.fee > 0
       then [Debit(System(InstantWithdrawalRevenueToman), Toman(p.fee)), Credit(Merchant(p.merchant), Toman(p.fee), AVAILABLE)]
       else [])
  }

  /** Whether this call failed the payout. */
  ghost function FailPayout(db: Db, id: nat, now: int): Step<bool> {
    if id >= |db.payouts| then Step(db, Err(NotFound))
    else
      var p := db.payouts[id];
      if p.status == FAILED then Step(db, Ok(false))
      else if p.status == SETTLED then Step(db, Err(AlreadySettled))
      else if p.status == UNKNOWN then Step(db, Err(UnknownNoBlindRetry))
      else
        PostFailure(db, id, now)
  }

  function FailDraft(p: Payout, id: nat): JournalDraft {
    JournalDraft(PayoutRef(id), Some(PayoutFailed(id)), FailLines(p))
  }

  ghost function PostFailure(db: Db, id: nat, now: int): Step<bool>
    requires id < |db.payouts|
  {
    var posting := Posting(db.journals, FailDraft(db.payouts[id], id));
    match posting.result
    case Refused(e) => Step(db, Err(NotPosted(e)))
    case Posted(_, created) =>
      if !created then Step(db, Ok(false))
      else Step(db.(journals := posting.journals,
                    payouts := db.payouts[id := db.payouts[id].(status := FAILED, updatedAt := now)],
                    reservations := Resolve(db.reservations, id, RELEASED)),
                Ok(true))
  }

  /** Reconciliation takes an UNKNOWN payout back to RESERVED before failing it. */
  function ResetNotFound(db: Db, id: nat, now: int): Step<()> {
    if id < |db.payouts| && db.payouts[id].status == UNKNOWN
    then Step(db.(payouts := db.payouts[id := db.payouts[id].(status := RESERVED, updatedAt := now)]), Ok(()))
    else Step(db, Ok(()))
  }

  predicate Stale(r: Reservation, now: int) { r.status == ACTIVE && r.expiresAt < now }

  predicate HasStale(rs: seq<Reservation>, payout: nat, now: int) {
    exists k :: 0 <= k < |rs| && rs[k].payout == payout && Stale(rs[k], now)
  }

  function Lapse(rs: seq<Reservation>, now: int): (out: seq<Reservation>)
    ensures |out| == |rs|
    ensures forall k :: 0 <= k < |rs| ==> out[k] == if Stale(rs[k], now) then rs[k].(status := EXPIRED) else rs[k]
  {
    seq(|rs|, k requires 0 <= k < |rs| => if Stale(rs[k], now) then rs[k].(status := EXPIRED) else rs[k])
  }

  /** RESERVED payouts whose reservation lapsed go back to RATE_LOCKED; later stages are left alone. */
  function Unreserve(ps: seq<Payout>, rs: seq<Reservation>, now: int): (out: seq<Payout>)
    ensures |out| == |ps|
    ensures forall k :: 0 <= k < |ps| ==>
      out[k] == if ps[k].status == RESERVED && HasStale(rs, k, now) then ps[k].(status := RATE_LOCKED, updatedAt := now) else ps[k]
  {
    seq(|ps|, k requires 0 <= k < |ps| =>
      if ps[k].status == RESERVED && HasStale(rs, k, now) then ps[k].(status := RATE_LOCKED, updatedAt := now) else ps[k])
  }

  function ExpireReservations(db: Db, now: int): Step<()> {
    Step(db.(reservations := Lapse(db.reservations, now), payouts := Unreserve(db.payouts, db.reservations, now)), Ok(()))
  }

  function FundLines(amount: int): seq<JournalLine> {
    [Debit(System(TreasuryGram), Gram(amount)), Credit(System(TreasuryFundingEquity), Gram(amount))]
  }

  /** Whether the funding was recorded; a known transaction hash is not recorded again. */
  ghost function FundTreasury(db: Db, amount: int, txHash: string): Step<bool> {
    if amount <= 0 then Step(db, Err(AmountNotPositive))
    else if amount > MAX_GRAM then Step(db, Err(AmountTooLarge))
    else if KnownTx(db.treasuryTxs, txHash) then Step(db, Ok(false))
    else
      var posting := Posting(db.journals, JournalDraft(TreasuryRef, Some(TreasuryFunded(txHash)), FundLines(amount)));
      match posting.result
      case Refused(e) => Step(db, Err(NotPosted(e)))
      case Posted(_, _) =>
        Step(db.(journals := posting.journals,
                 confirmed := db.confirmed + amount,
                 treasuryTxs := db.treasuryTxs + [TreasuryTx(true, amount, txHash)]),
             Ok(true))
  }

  // ---------------------------------------------------------------------------
  // Runs: any interleaving of transactions
  // ---------------------------------------------------------------------------

  datatype Operation =
    | OpCreateInvoice(invoiceRequest: InvoiceRequest)
    | OpCancelInvoice(merchant: nat, id: nat)
    | OpExpireInvoices(now: int)
    | OpFinalizePayment(invoice: nat, evidence: Evidence, holdTime: int, providerBps: nat)
    | OpSetHold(id: nat, held: bool)
    | OpReleasePayment(id: nat, now: int, merchantActive: bool)
    | OpQueuePayout(queueRequest: QueueRequest)
    | OpLockRate(id: nat, quote: string, source: string, expired: bool, now: int)
    | OpReserveLiquidity(id: nat, now: int, ttl: int)
    | OpRecordSignature(id: nat, reference: string, now: int)
    | OpPrepareBroadcast(id: nat, now: int, gateOpen: bool, wallet: Option<Wallet>)
    | OpRecordBroadcast(id: nat, reported: Option<string>, now: int)
    | OpMarkUnknown(id: nat, now: int)
    | OpMarkConfirming(id: nat, observed: string, now: int)
    | OpSettlePayout(id: nat, chainEvidence: ChainEvidence, required: int, now: int)
    | OpFailPayout(id: nat, now: int)
    | OpResetNotFound(id: nat, now: int)
    | OpExpireReservations(now: int)
    | OpFundTreasury(amount: int, txHash: string)

  ghost function Apply(db: Db, op: Operation): Db {
    match op
    case OpCreateInvoice(q) => CreateInvoice(db, q).db
    case OpCancelInvoice(merchant, id) => CancelInvoice(db, merchant, id).db
    case OpExpireInvoices(now) => ExpireInvoices(db, now).db
    case OpFinalizePayment(inv, ev, hold, bps) => FinalizePayment(db, inv, ev, hold, bps).db
    case OpSetHold(id, held) => SetHold(db, id, held).db
    case OpReleasePayment(id, now, active) => ReleasePayment(db, id, now, active).db
    case OpQueuePayout(q) => QueuePayout(db, q).db
    case OpLockRate(id, quote, source, expired, now) => LockRate(db, id, quote, source, expired, now).db
    case OpReserveLiquidity(id, now, ttl) => ReserveLiquidity(db, id, now, ttl).db
    case OpRecordSignature(id, reference, now) => RecordSignature(db, id, reference, now).db
    case OpPrepareBroadcast(id, now, gate, wallet) => PrepareBroadcast(db, id, now, gate, wallet).db
    case OpRecordBroadcast(id, txHash, now) => RecordBroadcast(db, id, txHash, now).db
    case OpMarkUnknown(id, now) => MarkUnknown(db, id, now).db
    case OpMarkConfirming(id, txHash, now) => MarkConfirming(db, id, txHash, now).db
    case OpSettlePayout(id, ev, required, now) => SettlePayout(db, id, ev, required, now).db
    case OpFailPayout(id, now) => FailPayout(db, id, now).db
    case OpResetNotFound(id, now) => ResetNotFound(db, id, now).db
    case OpExpireReservations(now) => ExpireReservations(db, now).db
    case OpFundTreasury(amount, txHash) => FundTreasury(db, amount, txHash).db
  }

  function EmptyDb(safety: nat): Db { Db([], [], [], [], [], 0, safety, []) }

  ghost function Run(db: Db, ops: seq<Operation>): Db {
    if ops == [] then db else Apply(Run(db, ops[..|ops| - 1]), ops[|ops| - 1])
  }
}
