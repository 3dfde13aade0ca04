/** Payout, reservation and treasury transactions keep the pipeline invariant. */
module PayoutSteps {
  import opened Basics
  import opened MoneyMath
  import opened Sums
  import opened Ledger
  import opened Pipeline
  import opened PipelineInvariants

  // ---------------------------------------------------------------------------
  // Rewriting one payout row
  // ---------------------------------------------------------------------------

  /** Same money, still live, and either in flight throughout with its GRAM fixed or not in flight at all. */
  ghost predicate LiveMove(p: Payout, q: Payout) {
    && q.merchant == p.merchant && q.amount == p.amount && q.gross == p.gross && q.fee == p.fee && q.instant == p.instant
    && !Terminal(p.status) && !Terminal(q.status)
    && (q.gram.Some? ==> q.gram.value > 0)
    && (|| (p.status in IN_FLIGHT && q.status in IN_FLIGHT && q.gram == p.gram)
        || (p.status !in IN_FLIGHT && q.status !in IN_FLIGHT))
  }

  /** Rows that weigh the same in the merchant and treasury totals. */
  ghost predicate SameWeight(before: seq<Payout>, after: seq<Payout>) {
    && |after| == |before|
    && forall k :: 0 <= k < |before| ==>
         && after[k].merchant == before[k].merchant && after[k].amount == before[k].amount && after[k].gross == before[k].gross
         && (after[k].status == SETTLED <==> before[k].status == SETTLED)
         && (after[k].status == FAILED <==> before[k].status == FAILED)
         && (after[k].status == SETTLED ==> after[k].gram == before[k].gram)
  }

  lemma SameWeightSums(before: seq<Payout>, after: seq<Payout>, m: nat)
    requires SameWeight(before, after)
    ensures Sum(after, Unsettled(m)) == Sum(before, Unsettled(m))
    ensures Sum(after, Withdrawn(m)) == Sum(before, Withdrawn(m))
    ensures Sum(after, SettledGram()) == Sum(before, SettledGram())
  {
    SumPointwise(after, before, Unsettled(m));
    SumPointwise(after, before, Withdrawn(m));
    SumPointwise(after, before, SettledGram());
  }

  lemma {:induction false} UnreservedSame(before: seq<Payout>, after: seq<Payout>, rs: seq<Reservation>, qs: seq<Reservation>, n: nat)
    requires n <= |before| && n <= |after|
    requires forall k :: 0 <= k < n ==> SettledGram()(after[k]) == SettledGram()(before[k])
    requires forall k :: 0 <= k < n && SettledGram()(before[k]) != 0 ==> (HasConsumed(qs, k) <==> HasConsumed(rs, k))
    ensures UnreservedPrincipal(after, qs, n) == UnreservedPrincipal(before, rs, n)
  {
    if n > 0 {
      UnreservedSame(before, after, rs, qs, n - 1);
    }
  }

  /** Everything but the reservations survives a rewrite of equal weight. */
  lemma SameWeightKeeps(db: Db, after: seq<Payout>)
    requires Inv(db) && SameWeight(db.payouts, after)
    ensures MerchantBooks(db.journals, db.invoices, db.payments, after)
    ensures OperationsDone(db.journals, db.payments, after, db.treasuryTxs)
    ensures TreasuryBooks(db.journals, after, db.treasuryTxs, db.confirmed)
    ensures UnreservedPrincipal(after, db.reservations, |after|) == UnreservedPrincipal(db.payouts, db.reservations, |db.payouts|)
  {
    forall m ensures MerchantBook(db.journals, db.invoices, db.payments, after, m) {
      assert MerchantBook(db.journals, db.invoices, db.payments, db.payouts, m);
      SameWeightSums(db.payouts, after, m);
    }
    SameWeightSums(db.payouts, after, 0);
    forall j | j in db.journals ensures OperationDone(j, db.payments, after, db.treasuryTxs) {
      assert OperationDone(j, db.payments, db.payouts, db.treasuryTxs);
    }
    UnreservedSame(db.payouts, after, db.reservations, db.reservations, |after|);
  }

  lemma LiveMoveReservations(ps: seq<Payout>, id: nat, q: Payout, rs: seq<Reservation>)
    requires id < |ps| && ReservationsMatch(ps, rs) && LiveMove(ps[id], q)
    ensures ReservationsMatch(ps[id := q], rs)
  {
    var after := ps[id := q];
    forall k | 0 <= k < |rs| ensures ReservationOk(after, rs[k]) {
      assert ReservationOk(ps, rs[k]);
    }
    forall k | 0 <= k < |after| ensures PayoutBacked(after[k], k, rs) {
      assert PayoutBacked(ps[k], k, rs);
    }
  }

  lemma RowKeeps(db: Db, id: nat, q: Payout)
    requires Inv(db) && id < |db.payouts| && LiveMove(db.payouts[id], q)
    ensures Inv(db.(payouts := db.payouts[id := q]))
  {
    var after := db.payouts[id := q];
    assert PayoutSane(db.payouts[id]);
    SameWeightKeeps(db, after);
    LiveMoveReservations(db.payouts, id, q, db.reservations);
    assert PayoutsSane(after);
  }

  lemma LockRateMove(db: Db, id: nat, quote: string, source: string, expired: bool, now: int)
    requires PayoutsSane(db.payouts)
    ensures var next := LockRate(db, id, quote, source, expired, now).db;
            next != db ==> id < |db.payouts| && LiveMove(db.payouts[id], next.payouts[id])
                           && next == db.(payouts := db.payouts[id := next.payouts[id]])
  {
  }

  lemma LockRateKeeps(db: Db, id: nat, quote: string, source: string, expired: bool, now: int)
    requires Inv(db)
    ensures Inv(LockRate(db, id, quote, source, expired, now).db)
  {
    var next := LockRate(db, id, quote, source, expired, now).db;
    LockRateMove(db, id, quote, source, expired, now);
    if next != db {
      RowKeeps(db, id, next.payouts[id]);
    }
  }

  lemma RecordSignatureKeeps(db: Db, id: nat, reference: string, now: int)
    requires Inv(db)
    ensures Inv(RecordSignature(db, id, reference, now).db)
  {
    var next := RecordSignature(db, id, reference, now).db;
    if next != db {
      assert PayoutSane(db.payouts[id]);
      RowKeeps(db, id, next.payouts[id]);
    }
  }

  lemma PrepareBroadcastKeeps(db: Db, id: nat, now: int, gateOpen: bool, wallet: Option<Wallet>)
    requires Inv(db)
    ensures Inv(PrepareBroadcast(db, id, now, gateOpen, wallet).db)
  {
    var next := PrepareBroadcast(db, id, now, gateOpen, wallet).db;
    if next != db {
      assert PayoutSane(db.payouts[id]);
      RowKeeps(db, id, next.payouts[id]);
    }
  }

  lemma InFlightMoveKeeps(db: Db, id: nat, now: int, txHash: Option<string>, to: PayoutStatus)
    requires Inv(db) && id < |db.payouts| && db.payouts[id].status in IN_FLIGHT && to in IN_FLIGHT
    ensures Inv(db.(payouts := db.payouts[id := db.payouts[id].(txHash := txHash, updatedAt := now, status := to)]))
  {
    assert PayoutSane(db.payouts[id]);
    RowKeeps(db, id, db.payouts[id].(txHash := txHash, updatedAt := now, status := to));
  }

  lemma RecordBroadcastKeeps(db: Db, id: nat, txHash: Option<string>, now: int)
    requires Inv(db)
    ensures Inv(RecordBroadcast(db, id, txHash, now).db)
  {
    if RecordBroadcast(db, id, txHash, now).result.Ok? {
      InFlightMoveKeeps(db, id, now, txHash, BROADCASTED);
    }
  }

  lemma MarkUnknownKeeps(db: Db, id: nat, now: int)
    requires Inv(db)
    ensures Inv(MarkUnknown(db, id, now).db)
  {
    if MarkUnknown(db, id, now).result.Ok? {
      InFlightMoveKeeps(db, id, now, db.payouts[id].txHash, UNKNOWN);
    }
  }

  lemma MarkConfirmingKeeps(db: Db, id: nat, txHash: string, now: int)
    requires Inv(db)
    ensures Inv(MarkConfirming(db, id, txHash, now).db)
  {
    if MarkConfirming(db, id, txHash, now).result == Ok(true) {
      InFlightMoveKeeps(db, id, now, Some(txHash), CONFIRMING);
    }
  }

  lemma ResetNotFoundKeeps(db: Db, id: nat, now: int)
    requires Inv(db)
    ensures Inv(ResetNotFound(db, id, now).db)
  {
    if id < |db.payouts| && db.payouts[id].status == UNKNOWN {
      InFlightMoveKeeps(db, id, now, db.payouts[id].txHash, RESERVED);
    }
  }

  // ---------------------------------------------------------------------------
  // Queue
  // ---------------------------------------------------------------------------

  lemma {:induction false} UnreservedAppend(ps: seq<Payout>, p: Payout, rs: seq<Reservation>)
    requires SettledGram()(p) == 0
    ensures UnreservedPrincipal(ps + [p], rs, |ps| + 1) == UnreservedPrincipal(ps, rs, |ps|)
  {
    UnreservedSame(ps, ps + [p], rs, rs, |ps|);
  }

  lemma QueuedReservations(ps: seq<Payout>, p: Payout, rs: seq<Reservation>)
    requires ReservationsMatch(ps, rs) && p.status == QUEUED
    ensures ReservationsMatch(ps + [p], rs)
  {
    var after := ps + [p];
    forall k | 0 <= k < |rs| ensures ReservationOk(after, rs[k]) {
      assert ReservationOk(ps, rs[k]);
    }
    forall k | 0 <= k < |after| ensures PayoutBacked(after[k], k, rs) {
      assert k < |ps| ==> PayoutBacked(ps[k], k, rs);
    }
  }

  lemma QueuedBooks(db: Db, next: Db, p: Payout)
    requires MerchantBooks(db.journals, db.invoices, db.payments, db.payouts)
    requires p.status == QUEUED && p.gross == p.amount + p.fee
    requires forall a, b :: Balance(next.journals, a, b)
               == Balance(db.journals, a, b) + Sum(QueueLines(p.merchant, p.gross, p.amount, p.fee), LineMoves(a, b))
    requires next.payouts == db.payouts + [p] && next.invoices == db.invoices && next.payments == db.payments
    ensures MerchantBooks(next.journals, next.invoices, next.payments, next.payouts)
  {
    forall m ensures MerchantBook(next.journals, next.invoices, next.payments, next.payouts, m) {
      assert MerchantBook(db.journals, db.invoices, db.payments, db.payouts, m);
      QueueLinesMove(p.merchant, p.gross, p.amount, p.fee, Merchant(m), PENDING);
      QueueLinesMove(p.merchant, p.gross, p.amount, p.fee, Merchant(m), SETTLING);
      QueueLinesMove(p.merchant, p.gross, p.amount, p.fee, Merchant(m), AVAILABLE);
      SumAppend(db.payouts, p, Unsettled(m));
      SumAppend(db.payouts, p, Withdrawn(m));
    }
  }

  lemma QueueGram(before: seq<Journal>, after: seq<Journal>, m: nat, gross: int, net: int, fee: int)
    requires forall a, b :: Balance(after, a, b) == Balance(before, a, b) + Sum(QueueLines(m, gross, net, fee), LineMoves(a, b))
    ensures GramBook(after) == GramBook(before)
  {
    QueueLinesMove(m, gross, net, fee, System(TreasuryGram), AVAILABLE);
    QueueLinesMove(m, gross, net, fee, System(SettlementClearingGram), AVAILABLE);
    QueueLinesMove(m, gross, net, fee, System(NetworkFeeExpenseGram), AVAILABLE);
    QueueLinesMove(m, gross, net, fee, System(TreasuryFundingEquity), AVAILABLE);
  }

  /** Payout marks survive when payout rows are only added or move towards their end. */
  ghost predicate PayoutsGrow(before: seq<Payout>, after: seq<Payout>) {
    && |before| <= |after|
    && (forall k :: 0 <= k < |before| && Terminal(before[k].status) ==> after[k].status == before[k].status)
  }

  lemma PayoutMarks(db: Db, next: Db, reference: Reference, op: OperationId, es: seq<Entry>)
    requires OperationsDone(db.journals, db.payments, db.payouts, db.treasuryTxs)
    requires next.journals == db.journals + [Journal(reference, op, es)]
    requires next.payments == db.payments && PayoutsGrow(db.payouts, next.payouts)
    requires forall h :: KnownTx(db.treasuryTxs, h) ==> KnownTx(next.treasuryTxs, h)
    requires OperationDone(Journal(reference, op, es), next.payments, next.payouts, next.treasuryTxs)
    ensures OperationsDone(next.journals, next.payments, next.payouts, next.treasuryTxs)
  {
    forall j | j in next.journals ensures OperationDone(j, next.payments, next.payouts, next.treasuryTxs) {
      if j in db.journals {
        assert OperationDone(j, db.payments, db.payouts, db.treasuryTxs);
      }
    }
  }

  function QueueDraft(p: Payout, id: nat): JournalDraft {
    JournalDraft(PayoutRef(id), Some(PayoutQueued(id)), QueueLines(p.merchant, p.gross, p.amount, p.fee))
  }

  lemma QueuedKeeps(db: Db, next: Db, p: Payout, draft: JournalDraft)
    requires Inv(db) && Sound(next.journals) && p.status == QUEUED && PayoutSane(p) && p.gram.None?
    requires draft == QueueDraft(p, |db.payouts|) && LinesError(draft.lines).None?
    requires next.journals == db.journals + [Journal(draft.reference, draft.operationId.value, Entries(draft.lines))]
    requires forall a, b :: Balance(next.journals, a, b) == Balance(db.journals, a, b) + Sum(draft.lines, LineMoves(a, b))
    requires forall k: nat :: PendingAmount(next.journals, k) == PendingAmount(db.journals, k)
    requires next == db.(journals := next.journals, payouts := db.payouts + [p])
    ensures Inv(next)
  {
    QueuedBooks(db, next, p);
    QueueGram(db.journals, next.journals, p.merchant, p.gross, p.amount, p.fee);
    PayoutMarks(db, next, draft.reference, draft.operationId.value, Entries(draft.lines));
    SumAppend(db.payouts, p, SettledGram());
    QueuedReservations(db.payouts, p, db.reservations);
    UnreservedAppend(db.payouts, p, db.reservations);
    assert PayoutsSane(next.payouts);
    assert PendingHeld(next.journals, next.invoices, next.payments);
  }

  lemma InsertPayoutShape(db: Db, merchant: nat, instant: bool, gross: int, fee: int, w: Wallet, now: int)
    requires InsertPayout(db, merchant, instant, gross, fee, w, now).result.Ok?
    ensures var p := Payout(merchant, gross - fee, gross, fee, instant, None, w.address, w.network, QUEUED, None, None, 0, now);
            var posting := Posting(db.journals, QueueDraft(p, |db.payouts|));
            && posting.result.Posted? && posting.result.created
            && InsertPayout(db, merchant, instant, gross, fee, w, now).db
               == db.(journals := posting.journals, payouts := db.payouts + [p])
  {
  }

  lemma InsertPayoutKeeps(db: Db, merchant: nat, instant: bool, gross: int, fee: int, w: Wallet, now: int)
    requires Inv(db) && 0 <= fee < gross && (fee > 0 ==> instant)
    ensures Inv(InsertPayout(db, merchant, instant, gross, fee, w, now).db)
  {
    var step := InsertPayout(db, merchant, instant, gross, fee, w, now);
    if step.result.Ok? {
      var p := Payout(merchant, gross - fee, gross, fee, instant, None, w.address, w.network, QUEUED, None, None, 0, now);
      var draft := QueueDraft(p, |db.payouts|);
      InsertPayoutShape(db, merchant, instant, gross, fee, w, now);
      PostKeepsSound(db.journals, draft);
      PostedMoves(db.journals, draft);
      QueuedKeeps(db, step.db, p, draft);
    }
  }

  lemma InstantFee(gross: int)
    requires gross >= 0
    ensures 0 <= Rounded(gross * 2, 100, FLOOR) <= gross
  {
    RoundedIsRounding(gross * 2, 100, FLOOR);
  }

  lemma QueuePayoutKeeps(db: Db, q: QueueRequest)
    requires Inv(db)
    ensures Inv(QueuePayout(db, q).db)
  {
    var next := QueuePayout(db, q).db;
    if next != db {
      var available := Balance(db.journals, Merchant(q.merchant), AVAILABLE);
      var wanted := if q.requested.Some? then q.requested.value else available;
      var gross := if wanted > q.maxPayout then q.maxPayout else wanted;
      var fee := if q.instant then Rounded(gross * 2, 100, FLOOR) else 0;
      InstantFee(gross);
      InsertPayoutKeeps(db, q.merchant, q.instant, gross, fee, q.wallet.value, q.now);
    }
  }

  // ---------------------------------------------------------------------------
  // Reserve
  // ---------------------------------------------------------------------------

  lemma ReservedMatch(ps: seq<Payout>, id: nat, q: Payout, rs: seq<Reservation>, r: Reservation)
    requires id < |ps| && ReservationsMatch(ps, rs) && ps[id].status == RATE_LOCKED
    requires q.status == RESERVED && q.gram == Some(r.amount) && r.payout == id && r.status == ACTIVE
    ensures ReservationsMatch(ps[id := q], rs + [r])
  {
    var after, next := ps[id := q], rs + [r];
    forall k | 0 <= k < |next| ensures ReservationOk(after, next[k]) {
      assert k < |rs| ==> ReservationOk(ps, rs[k]);
    }
    assert next[|rs|] == r;
    forall k | 0 <= k < |after| ensures PayoutBacked(after[k], k, next) {
      assert PayoutBacked(ps[k], k, rs);
      if HasReservation(rs, k) {
        var i :| 0 <= i < |rs| && rs[i].payout == k;
        assert next[i].payout == k;
      }
    }
    forall j, k | 0 <= j < k < |next| && next[j].status == ACTIVE && next[k].status == ACTIVE
      ensures next[j].payout != next[k].payout
    {
      assert ReservationOk(ps, rs[j]);
    }
  }

  lemma SameConsumed(rs: seq<Reservation>, r: Reservation, k: nat)
    requires r.status != CONSUMED
    ensures HasConsumed(rs + [r], k) <==> HasConsumed(rs, k)
  {
    if HasConsumed(rs, k) {
      var i :| 0 <= i < |rs| && rs[i].payout == k && rs[i].status == CONSUMED;
      assert (rs + [r])[i] == rs[i];
    }
  }

  lemma ReservedKeeps(db: Db, id: nat, now: int, ttl: int)
    requires Inv(db) && ReserveLiquidity(db, id, now, ttl).result.Ok? && ReserveLiquidity(db, id, now, ttl).result.value.Reserved?
    ensures Inv(ReserveLiquidity(db, id, now, ttl).db)
  {
    var next := ReserveLiquidity(db, id, now, ttl).db;
    var r := next.reservations[|db.reservations|];
    var q := next.payouts[id];
    assert PayoutSane(db.payouts[id]);
    SameWeightKeeps(db, next.payouts);
    ReservedMatch(db.payouts, id, q, db.reservations, r);
    assert PayoutsSane(next.payouts);
    SumAppend(db.reservations, r, ActiveAmount());
    forall k: nat ensures HasConsumed(next.reservations, k) <==> HasConsumed(db.reservations, k) {
      SameConsumed(db.reservations, r, k);
    }
    UnreservedSame(next.payouts, next.payouts, db.reservations, next.reservations, |next.payouts|);
    UnreservedNotNegative(next.payouts, next.reservations, |next.payouts|);
  }

  lemma {:induction false} UnreservedNotNegative(ps: seq<Payout>, rs: seq<Reservation>, n: nat)
    requires n <= |ps| && PayoutsSane(ps)
    ensures UnreservedPrincipal(ps, rs, n) >= 0
  {
    if n > 0 {
      assert PayoutSane(ps[n - 1]);
      UnreservedNotNegative(ps, rs, n - 1);
    }
  }

  lemma ReserveLiquidityKeeps(db: Db, id: nat, now: int, ttl: int)
    requires Inv(db)
    ensures Inv(ReserveLiquidity(db, id, now, ttl).db)
  {
    var step := ReserveLiquidity(db, id, now, ttl);
    if step.result.Ok? {
      if step.result.value.Reserved? {
        ReservedKeeps(db, id, now, ttl);
      } else {
        assert PayoutSane(db.payouts[id]);
        RowKeeps(db, id, step.db.payouts[id]);
      }
    }
  }

  // ---------------------------------------------------------------------------
  // Settle and fail
  // ---------------------------------------------------------------------------

  /** Ending a payout leaves its reservations without an ACTIVE row and every other payout as it was. */
  lemma ResolvedMatch(ps: seq<Payout>, id: nat, q: Payout, rs: seq<Reservation>, to: ReservationStatus)
    requires id < |ps| && ReservationsMatch(ps, rs) && !Terminal(ps[id].status) && q.gram == ps[id].gram
    requires (q.status == SETTLED && to == CONSUMED && ps[id].status in IN_FLIGHT) || (q.status == FAILED && to == RELEASED)
    ensures ReservationsMatch(ps[id := q], Resolve(rs, id, to))
  {
    var after, next := ps[id := q], Resolve(rs, id, to);
    forall k | 0 <= k < |next| ensures ReservationOk(after, next[k]) {
      assert ReservationOk(ps, rs[k]);
    }
    forall k | 0 <= k < |after| ensures PayoutBacked(after[k], k, next) {
      assert PayoutBacked(ps[k], k, rs);
      if HasReservation(rs, k) {
        var i :| 0 <= i < |rs| && rs[i].payout == k;
        assert next[i].payout == k;
      }
    }
  }

  function ActiveOf(rs: seq<Reservation>, payout: nat): int
  {
    if rs == [] then 0
    else ActiveOf(rs[..|rs| - 1], payout)
         + (if rs[|rs| - 1].payout == payout && rs[|rs| - 1].status == ACTIVE then rs[|rs| - 1].amount else 0)
  }

  lemma {:induction false} ResolveReleases(rs: seq<Reservation>, payout: nat, to: ReservationStatus)
    requires to != ACTIVE
    ensures Sum(Resolve(rs, payout, to), ActiveAmount()) == Sum(rs, ActiveAmount()) - ActiveOf(rs, payout)
  {
    if rs != [] {
      var n := |rs| - 1;
      ResolveReleases(rs[..n], payout, to);
      assert Resolve(rs, payout, to)[..n] == Resolve(rs[..n], payout, to);
    } else {
      assert Resolve(rs, payout, to) == [];
    }
  }

  lemma ActiveSplit(rs: seq<Reservation>, payout: nat)
    requires rs != []
    ensures var n := |rs| - 1;
            HasActive(rs, payout) <==> HasActive(rs[..n], payout) || (rs[n].payout == payout && rs[n].status == ACTIVE)
  {
    var n := |rs| - 1;
    assert forall i :: 0 <= i < n ==> rs[..n][i] == rs[i];
    if HasActive(rs[..n], payout) {
      var i :| 0 <= i < n && rs[..n][i].payout == payout && rs[..n][i].status == ACTIVE;
      assert rs[i].payout == payout && rs[i].status == ACTIVE;
    }
  }

  /** A payout with an ACTIVE row holds exactly its locked GRAM, otherwise nothing. */
  lemma {:induction false} ActiveIsGram(ps: seq<Payout>, rs: seq<Reservation>, payout: nat)
    requires payout < |ps|
    requires forall k :: 0 <= k < |rs| ==> ReservationOk(ps, rs[k])
    requires forall j, k :: 0 <= j < k < |rs| && rs[j].status == ACTIVE && rs[k].status == ACTIVE ==> rs[j].payout != rs[k].payout
    ensures HasActive(rs, payout) ==> ps[payout].gram == Some(ActiveOf(rs, payout))
    ensures !HasActive(rs, payout) ==> ActiveOf(rs, payout) == 0
  {
    if rs != [] {
      var n := |rs| - 1;
      ActiveIsGram(ps, rs[..n], payout);
      ActiveSplit(rs, payout);
      assert ReservationOk(ps, rs[n]);
      if HasActive(rs[..n], payout) {
        var i :| 0 <= i < n && rs[..n][i].payout == payout && rs[..n][i].status == ACTIVE;
        assert rs[i].payout == payout && rs[i].status == ACTIVE;
      }
    }
  }

  lemma ResolveConsumed(rs: seq<Reservation>, payout: nat, to: ReservationStatus, k: nat)
    requires to == CONSUMED || to == RELEASED
    ensures HasConsumed(Resolve(rs, payout, to), k) <==>
      HasConsumed(rs, k) || (to == CONSUMED && k == payout && HasActive(rs, payout))
  {
    var next := Resolve(rs, payout, to);
    if HasConsumed(rs, k) {
      var i :| 0 <= i < |rs| && rs[i].payout == k && rs[i].status == CONSUMED;
      assert next[i] == rs[i];
    }
    if HasActive(rs, payout) {
      var i :| 0 <= i < |rs| && rs[i].payout == payout && rs[i].status == ACTIVE;
      assert next[i].status == to && next[i].payout == payout;
    }
  }

  lemma LiveHasNoConsumed(ps: seq<Payout>, rs: seq<Reservation>, id: nat)
    requires id < |ps| && ReservationsMatch(ps, rs) && ps[id].status != SETTLED
    ensures !HasConsumed(rs, id)
  {
    forall i | 0 <= i < |rs| && rs[i].payout == id ensures rs[i].status != CONSUMED {
      assert ReservationOk(ps, rs[i]);
    }
  }

  lemma {:induction false} UnreservedSettles(ps: seq<Payout>, id: nat, q: Payout, rs: seq<Reservation>, qs: seq<Reservation>, n: nat)
    requires id < |ps| && n <= |ps| && SettledGram()(ps[id]) == 0
    requires forall k: nat :: k != id ==> (HasConsumed(qs, k) <==> HasConsumed(rs, k))
    ensures UnreservedPrincipal(ps[id := q], qs, n) ==
      UnreservedPrincipal(ps, rs, n) + if id < n && !HasConsumed(qs, id) then SettledGram()(q) else 0
  {
    if n > 0 {
      UnreservedSettles(ps, id, q, rs, qs, n - 1);
    }
  }

  lemma InsertTxFunding(txs: seq<TreasuryTx>, t: TreasuryTx)
    requires !t.incoming
    ensures Sum(InsertTx(txs, t), Funding()) == Sum(txs, Funding())
    ensures forall h :: KnownTx(txs, h) ==> KnownTx(InsertTx(txs, t), h)
  {
    SumAppend(txs, t, Funding());
    var next := InsertTx(txs, t);
    forall h | KnownTx(txs, h) ensures KnownTx(next, h) {
      var k :| 0 <= k < |txs| && txs[k].txHash == h;
      assert next[k] == txs[k];
    }
  }

  lemma SettleTxsFunding(txs: seq<TreasuryTx>, ev: ChainEvidence, gram: int, networkFee: int)
    ensures Sum(SettleTxs(txs, ev, gram, networkFee), Funding()) == Sum(txs, Funding())
    ensures forall h :: KnownTx(txs, h) ==> KnownTx(SettleTxs(txs, ev, gram, networkFee), h)
  {
    var t := TreasuryTx(false, gram + networkFee, ev.txHash);
    InsertTxFunding(txs, t);
    InsertTxFunding(InsertTx(txs, t), TreasuryTx(false, networkFee, ev.txHash + ":fee"));
  }

  lemma SettledBooks(db: Db, next: Db, id: nat, gram: int, fee: int)
    requires id < |db.payouts| && MerchantBooks(db.journals, db.invoices, db.payments, db.payouts)
    requires !Terminal(db.payouts[id].status)
    requires forall a, b :: Balance(next.journals, a, b)
               == Balance(db.journals, a, b) + Sum(SettleLines(db.payouts[id], gram, fee), LineMoves(a, b))
    requires |next.payouts| == |db.payouts| && next.payouts == db.payouts[id := next.payouts[id]]
    requires next.payouts[id] == SettledRow(db.payouts[id], next.payouts[id])
    requires next.invoices == db.invoices && next.payments == db.payments
    ensures MerchantBooks(next.journals, next.invoices, next.payments, next.payouts)
  {
    var p, q := db.payouts[id], next.payouts[id];
    forall m ensures MerchantBook(next.journals, next.invoices, next.payments, next.payouts, m) {
      assert MerchantBook(db.journals, db.invoices, db.payments, db.payouts, m);
      SettleLinesMove(p, gram, fee, Merchant(m), PENDING);
      SettleLinesMove(p, gram, fee, Merchant(m), SETTLING);
      SettleLinesMove(p, gram, fee, Merchant(m), AVAILABLE);
      SumUpdate(db.payouts, id, q, Unsettled(m));
      SumUpdate(db.payouts, id, q, Withdrawn(m));
    }
  }

  lemma SettledGramBook(before: seq<Journal>, after: seq<Journal>, p: Payout, gram: int, fee: int)
    requires fee >= 0
    requires forall a, b :: Balance(after, a, b) == Balance(before, a, b) + Sum(SettleLines(p, gram, fee), LineMoves(a, b))
    ensures var g := GramBook(before);
            GramBook(after) == GramTotals(g.treasury - gram - fee, g.principal + gram, g.networkFees + fee, g.equity)
  {
    SettleLinesMove(p, gram, fee, System(TreasuryGram), AVAILABLE);
    SettleLinesMove(p, gram, fee, System(SettlementClearingGram), AVAILABLE);
    SettleLinesMove(p, gram, fee, System(NetworkFeeExpenseGram), AVAILABLE);
    SettleLinesMove(p, gram, fee, System(TreasuryFundingEquity), AVAILABLE);
  }

  lemma SettledLiquid(db: Db, next: Db, id: nat, gram: int, fee: int)
    requires id < |db.payouts| && ReservationsMatch(db.payouts, db.reservations)
    requires !Terminal(db.payouts[id].status) && db.payouts[id].gram == Some(gram)
    requires Liquid(db.journals, db.payouts, db.reservations, db.confirmed, db.safety)
    requires |next.payouts| == |db.payouts|
    requires next.payouts == db.payouts[id := SettledRow(db.payouts[id], next.payouts[id])]
    requires next.reservations == Resolve(db.reservations, id, CONSUMED)
    requires next.confirmed == db.confirmed - (gram + fee) && next.safety == db.safety
    requires GramBook(next.journals).networkFees == GramBook(db.journals).networkFees + fee
    ensures Liquid(next.journals, next.payouts, next.reservations, next.confirmed, next.safety)
  {
    ResolveReleases(db.reservations, id, CONSUMED);
    ActiveIsGram(db.payouts, db.reservations, id);
    forall k: nat ensures HasConsumed(next.reservations, k) <==>
      HasConsumed(db.reservations, k) || (k == id && HasActive(db.reservations, id))
    {
      ResolveConsumed(db.reservations, id, CONSUMED, k);
    }
    LiveHasNoConsumed(db.payouts, db.reservations, id);
    UnreservedSettles(db.payouts, id, next.payouts[id], db.reservations, next.reservations, |db.payouts|);
    if k :| 0 <= k < |next.reservations| && next.reservations[k].status == ACTIVE {
      assert db.reservations[k].status == ACTIVE;
    }
  }

  /** `p` settled, with the hash and the time of `q`. */
  function SettledRow(p: Payout, q: Payout): Payout { p.(status := SETTLED, txHash := q.txHash, updatedAt := q.updatedAt) }

  lemma PostSettlementKeeps(db: Db, id: nat, ev: ChainEvidence, gram: int, fee: int, now: int)
    requires Inv(db) && id < |db.payouts|
    requires db.payouts[id].status in {BROADCASTED, CONFIRMING, UNKNOWN} && db.payouts[id].gram == Some(gram)
    ensures Inv(PostSettlement(db, id, ev, gram, fee, now).db)
  {
    var step := PostSettlement(db, id, ev, gram, fee, now);
    if step.result == Ok(true) {
      var draft := SettleDraft(db.payouts[id], id, gram, fee);
      PostKeepsSound(db.journals, draft);
      PostedMoves(db.journals, draft);
      SettledFeeNotNegative(db.journals, draft, db.payouts[id], gram, fee);
      SettledShape(db, id, ev, gram, fee, now);
      SettledKeeps(db, step.db, id, gram, fee, ev, draft);
    }
  }

  lemma SettledShape(db: Db, id: nat, ev: ChainEvidence, gram: int, fee: int, now: int)
    requires id < |db.payouts| && ReservationsMatch(db.payouts, db.reservations)
    requires db.payouts[id].status in {BROADCASTED, CONFIRMING, UNKNOWN}
    requires PostSettlement(db, id, ev, gram, fee, now).result == Ok(true)
    ensures PostSettlement(db, id, ev, gram, fee, now).db
         == db.(journals := Posting(db.journals, SettleDraft(db.payouts[id], id, gram, fee)).journals,
                payouts := db.payouts[id := db.payouts[id].(status := SETTLED, txHash := Some(ev.txHash), updatedAt := now)],
                reservations := Resolve(db.reservations, id, CONSUMED),
                confirmed := db.confirmed - (gram + fee),
                treasuryTxs := SettleTxs(db.treasuryTxs, ev, gram, fee))
  {
    assert PayoutBacked(db.payouts[id], id, db.reservations);
  }

  lemma SettlePayoutKeeps(db: Db, id: nat, ev: ChainEvidence, required: int, now: int)
    requires Inv(db)
    ensures Inv(SettlePayout(db, id, ev, required, now).db)
  {
    var next := SettlePayout(db, id, ev, required, now).db;
    if next != db {
      assert PayoutBacked(db.payouts[id], id, db.reservations);
      var fee := if ev.networkFee.Some? then ev.networkFee.value else 0;
      PostSettlementKeeps(db, id, ev, db.payouts[id].gram.value, fee, now);
    }
  }

  lemma SettledKeeps(db: Db, next: Db, id: nat, gram: int, fee: int, ev: ChainEvidence, draft: JournalDraft)
    requires Inv(db) && id < |db.payouts| && Sound(next.journals) && fee >= 0
    requires db.payouts[id].status in {BROADCASTED, CONFIRMING, UNKNOWN} && db.payouts[id].gram == Some(gram)
    requires draft == SettleDraft(db.payouts[id], id, gram, fee)
    requires LinesError(draft.lines).None?
    requires next.journals == db.journals + [Journal(draft.reference, draft.operationId.value, Entries(draft.lines))]
    requires forall a, b :: Balance(next.journals, a, b) == Balance(db.journals, a, b) + Sum(draft.lines, LineMoves(a, b))
    requires forall k: nat :: PendingAmount(next.journals, k) == PendingAmount(db.journals, k)
    requires |next.payouts| == |db.payouts|
    requires next == db.(journals := next.journals,
                         payouts := db.payouts[id := SettledRow(db.payouts[id], next.payouts[id])],
                         reservations := Resolve(db.reservations, id, CONSUMED),
                         confirmed := db.confirmed - (gram + fee),
                         treasuryTxs := SettleTxs(db.treasuryTxs, ev, gram, fee))
    ensures Inv(next)
  {
    SettledBooks(db, next, id, gram, fee);
    SettledTreasury(db, next, id, gram, fee, ev);
    SettleTxsFunding(db.treasuryTxs, ev, gram, fee);
    PayoutMarks(db, next, draft.reference, PayoutSettled(id), Entries(draft.lines));
    ResolvedMatch(db.payouts, id, next.payouts[id], db.reservations, CONSUMED);
    SettledLiquid(db, next, id, gram, fee);
    EndedSane(db.payouts, id, next.payouts[id]);
    assert PendingHeld(next.journals, next.invoices, next.payments);
  }

  lemma EndedSane(ps: seq<Payout>, id: nat, q: Payout)
    requires id < |ps| && PayoutsSane(ps)
    requires q == ps[id].(status := q.status, txHash := q.txHash, updatedAt := q.updatedAt)
    ensures PayoutsSane(ps[id := q])
  {
    assert PayoutSane(ps[id]);
  }

  lemma SettledTreasury(db: Db, next: Db, id: nat, gram: int, fee: int, ev: ChainEvidence)
    requires id < |db.payouts| && fee >= 0 && !Terminal(db.payouts[id].status) && db.payouts[id].gram == Some(gram)
    requires TreasuryBooks(db.journals, db.payouts, db.treasuryTxs, db.confirmed)
    requires forall a, b :: Balance(next.journals, a, b)
               == Balance(db.journals, a, b) + Sum(SettleLines(db.payouts[id], gram, fee), LineMoves(a, b))
    requires |next.payouts| == |db.payouts|
    requires next.payouts == db.payouts[id := SettledRow(db.payouts[id], next.payouts[id])]
    requires next.confirmed == db.confirmed - (gram + fee) && next.treasuryTxs == SettleTxs(db.treasuryTxs, ev, gram, fee)
    ensures TreasuryBooks(next.journals, next.payouts, next.treasuryTxs, next.confirmed)
    ensures GramBook(next.journals).networkFees == GramBook(db.journals).networkFees + fee
  {
    SettledGramBook(db.journals, next.journals, db.payouts[id], gram, fee);
    SettleTxsFunding(db.treasuryTxs, ev, gram, fee);
    SumUpdate(db.payouts, id, next.payouts[id], SettledGram());
  }

  lemma FailedBooks(db: Db, next: Db, id: nat)
    requires id < |db.payouts| && MerchantBooks(db.journals, db.invoices, db.payments, db.payouts)
    requires !Terminal(db.payouts[id].status) && PayoutSane(db.payouts[id])
    requires forall a, b :: Balance(next.journals, a, b)
               == Balance(db.journals, a, b) + Sum(FailLines(db.payouts[id]), LineMoves(a, b))
    requires |next.payouts| == |db.payouts|
    requires next.payouts == db.payouts[id := db.payouts[id].(status := FAILED, updatedAt := next.payouts[id].updatedAt)]
    requires next.invoices == db.invoices && next.payments == db.payments
    ensures MerchantBooks(next.journals, next.invoices, next.payments, next.payouts)
  {
    var p, q := db.payouts[id], next.payouts[id];
    forall m ensures MerchantBook(next.journals, next.invoices, next.payments, next.payouts, m) {
      assert MerchantBook(db.journals, db.invoices, db.payments, db.payouts, m);
      FailLinesMove(p, Merchant(m), PENDING);
      FailLinesMove(p, Merchant(m), SETTLING);
      FailLinesMove(p, Merchant(m), AVAILABLE);
      SumUpdate(db.payouts, id, q, Unsettled(m));
      SumUpdate(db.payouts, id, q, Withdrawn(m));
    }
  }

  lemma FailedGramBook(before: seq<Journal>, after: seq<Journal>, p: Payout)
    requires forall a, b :: Balance(after, a, b) == Balance(before, a, b) + Sum(FailLines(p), LineMoves(a, b))
    ensures GramBook(after) == GramBook(before)
  {
    FailLinesMove(p, System(TreasuryGram), AVAILABLE);
    FailLinesMove(p, System(SettlementClearingGram), AVAILABLE);
    FailLinesMove(p, System(NetworkFeeExpenseGram), AVAILABLE);
    FailLinesMove(p, System(TreasuryFundingEquity), AVAILABLE);
  }

  lemma FailedLiquid(db: Db, next: Db, id: nat)
    requires id < |db.payouts| && ReservationsMatch(db.payouts, db.reservations) && PayoutsSane(db.payouts)
    requires !Terminal(db.payouts[id].status)
    requires Liquid(db.journals, db.payouts, db.reservations, db.confirmed, db.safety)
    requires |next.payouts| == |db.payouts|
    requires next.payouts == db.payouts[id := db.payouts[id].(status := FAILED, updatedAt := next.payouts[id].updatedAt)]
    requires next.reservations == Resolve(db.reservations, id, RELEASED)
    requires next.confirmed == db.confirmed && next.safety == db.safety
    requires GramBook(next.journals) == GramBook(db.journals)
    ensures Liquid(next.journals, next.payouts, next.reservations, next.confirmed, next.safety)
  {
    assert PayoutSane(db.payouts[id]);
    ResolveReleases(db.reservations, id, RELEASED);
    ActiveIsGram(db.payouts, db.reservations, id);
    forall k: nat ensures HasConsumed(next.reservations, k) <==> HasConsumed(db.reservations, k) {
      ResolveConsumed(db.reservations, id, RELEASED, k);
    }
    UnreservedSettles(db.payouts, id, next.payouts[id], db.reservations, next.reservations, |db.payouts|);
    if k :| 0 <= k < |next.reservations| && next.reservations[k].status == ACTIVE {
      assert db.reservations[k].status == ACTIVE;
    }
  }

  lemma FailedKeeps(db: Db, next: Db, id: nat, draft: JournalDraft)
    requires Inv(db) && id < |db.payouts| && Sound(next.journals) && !Terminal(db.payouts[id].status)
    requires draft == FailDraft(db.payouts[id], id) && LinesError(draft.lines).None?
    requires next.journals == db.journals + [Journal(draft.reference, draft.operationId.value, Entries(draft.lines))]
    requires forall a, b :: Balance(next.journals, a, b) == Balance(db.journals, a, b) + Sum(draft.lines, LineMoves(a, b))
    requires forall k: nat :: PendingAmount(next.journals, k) == PendingAmount(db.journals, k)
    requires |next.payouts| == |db.payouts|
    requires next == db.(journals := next.journals,
                         payouts := db.payouts[id := db.payouts[id].(status := FAILED, updatedAt := next.payouts[id].updatedAt)],
                         reservations := Resolve(db.reservations, id, RELEASED))
    ensures Inv(next)
  {
    var p, q := db.payouts[id], next.payouts[id];
    assert PayoutSane(p);
    FailedBooks(db, next, id);
    FailedGramBook(db.journals, next.journals, p);
    SumUpdate(db.payouts, id, q, SettledGram());
    PayoutMarks(db, next, draft.reference, PayoutFailed(id), Entries(draft.lines));
    ResolvedMatch(db.payouts, id, q, db.reservations, RELEASED);
    FailedLiquid(db, next, id);
    EndedSane(db.payouts, id, q);
    assert PendingHeld(next.journals, next.invoices, next.payments);
  }

  lemma PostFailureKeeps(db: Db, id: nat, now: int)
    requires Inv(db) && id < |db.payouts| && !Terminal(db.payouts[id].status)
    ensures Inv(PostFailure(db, id, now).db)
  {
    var step := PostFailure(db, id, now);
    if step.result == Ok(true) {
      var draft := FailDraft(db.payouts[id], id);
      PostKeepsSound(db.journals, draft);
      PostedMoves(db.journals, draft);
      FailedKeeps(db, step.db, id, draft);
    }
  }

  lemma FailPayoutKeeps(db: Db, id: nat, now: int)
    requires Inv(db)
    ensures Inv(FailPayout(db, id, now).db)
  {
    if FailPayout(db, id, now).db != db {
      PostFailureKeeps(db, id, now);
    }
  }

  // ---------------------------------------------------------------------------
  // Expire and fund
  // ---------------------------------------------------------------------------

  lemma LapsedMatch(ps: seq<Payout>, rs: seq<Reservation>, now: int)
    requires ReservationsMatch(ps, rs)
    ensures ReservationsMatch(Unreserve(ps, rs, now), Lapse(rs, now))
  {
    var after, next := Unreserve(ps, rs, now), Lapse(rs, now);
    forall k | 0 <= k < |next| ensures ReservationOk(after, next[k]) {
      assert ReservationOk(ps, rs[k]);
      if next[k].status == ACTIVE {
        forall i | 0 <= i < |rs| && i != k && rs[i].payout == rs[k].payout ensures rs[i].status != ACTIVE {
        }
      }
    }
    forall k | 0 <= k < |after| ensures PayoutBacked(after[k], k, next) {
      assert PayoutBacked(ps[k], k, rs);
      if HasReservation(rs, k) {
        var i :| 0 <= i < |rs| && rs[i].payout == k;
        assert next[i].payout == k;
      }
    }
  }

  lemma LapsedLiquid(db: Db, now: int)
    requires Inv(db)
    ensures var next := ExpireReservations(db, now).db;
            Liquid(next.journals, next.payouts, next.reservations, next.confirmed, next.safety)
  {
    var next := ExpireReservations(db, now).db;
    forall k | 0 <= k < |db.reservations|
      ensures ActiveAmount()(next.reservations[k]) <= ActiveAmount()(db.reservations[k])
    {
      assert ReservationOk(db.payouts, db.reservations[k]);
      if db.reservations[k].status == ACTIVE {
        assert PayoutSane(db.payouts[db.reservations[k].payout]);
      }
    }
    SumMonotone(next.reservations, db.reservations, ActiveAmount());
    forall k: nat ensures HasConsumed(next.reservations, k) <==> HasConsumed(db.reservations, k) {
      if HasConsumed(db.reservations, k) {
        var i :| 0 <= i < |db.reservations| && db.reservations[i].payout == k && db.reservations[i].status == CONSUMED;
        assert next.reservations[i] == db.reservations[i];
      }
    }
    UnreservedSame(db.payouts, next.payouts, db.reservations, next.reservations, |db.payouts|);
    if k :| 0 <= k < |next.reservations| && next.reservations[k].status == ACTIVE {
      assert db.reservations[k].status == ACTIVE;
    }
  }

  lemma ExpireReservationsKeeps(db: Db, now: int)
    requires Inv(db)
    ensures Inv(ExpireReservations(db, now).db)
  {
    var next := ExpireReservations(db, now).db;
    SameWeightKeeps(db, next.payouts);
    LapsedMatch(db.payouts, db.reservations, now);
    LapsedLiquid(db, now);
    forall k | 0 <= k < |next.payouts| ensures PayoutSane(next.payouts[k]) {
      assert PayoutSane(db.payouts[k]);
    }
  }

  function FundDraft(amount: int, txHash: string): JournalDraft {
    JournalDraft(TreasuryRef, Some(TreasuryFunded(txHash)), FundLines(amount))
  }

  lemma FundShape(db: Db, amount: int, txHash: string)
    requires OperationsDone(db.journals, db.payments, db.payouts, db.treasuryTxs)
    requires FundTreasury(db, amount, txHash).result == Ok(true)
    ensures var posting := Posting(db.journals, FundDraft(amount, txHash));
            && amount > 0 && posting.result.Posted? && posting.result.created
            && FundTreasury(db, amount, txHash).db
               == db.(journals := posting.journals, confirmed := db.confirmed + amount,
                      treasuryTxs := db.treasuryTxs + [TreasuryTx(true, amount, txHash)])
  {
    FundingIsNew(db, txHash);
  }

  lemma FundTreasuryKeeps(db: Db, amount: int, txHash: string)
    requires Inv(db)
    ensures Inv(FundTreasury(db, amount, txHash).db)
  {
    var step := FundTreasury(db, amount, txHash);
    if step.result == Ok(true) {
      var draft := FundDraft(amount, txHash);
      FundShape(db, amount, txHash);
      PostKeepsSound(db.journals, draft);
      PostedMoves(db.journals, draft);
      FundedKeeps(db, step.db, amount, txHash, draft);
    }
  }

  /** A funding hash with no treasury row has no journal either. */
  lemma FundingIsNew(db: Db, txHash: string)
    requires OperationsDone(db.journals, db.payments, db.payouts, db.treasuryTxs) && !KnownTx(db.treasuryTxs, txHash)
    ensures FindOperation(db.journals, TreasuryFunded(txHash)).None?
  {
    forall j | j in db.journals ensures j.operationId != TreasuryFunded(txHash) {
      assert OperationDone(j, db.payments, db.payouts, db.treasuryTxs);
    }
  }

  lemma FundedKeeps(db: Db, next: Db, amount: int, txHash: string, draft: JournalDraft)
    requires Inv(db) && Sound(next.journals) && amount > 0
    requires draft == FundDraft(amount, txHash) && LinesError(draft.lines).None?
    requires next.journals == db.journals + [Journal(draft.reference, draft.operationId.value, Entries(draft.lines))]
    requires forall a, b :: Balance(next.journals, a, b) == Balance(db.journals, a, b) + Sum(draft.lines, LineMoves(a, b))
    requires forall k: nat :: PendingAmount(next.journals, k) == PendingAmount(db.journals, k)
    requires next == db.(journals := next.journals, confirmed := db.confirmed + amount,
                         treasuryTxs := db.treasuryTxs + [TreasuryTx(true, amount, txHash)])
    ensures Inv(next)
  {
    var t := TreasuryTx(true, amount, txHash);
    FundLinesMove(amount, System(TreasuryGram), AVAILABLE);
    FundLinesMove(amount, System(SettlementClearingGram), AVAILABLE);
    FundLinesMove(amount, System(NetworkFeeExpenseGram), AVAILABLE);
    FundLinesMove(amount, System(TreasuryFundingEquity), AVAILABLE);
    SumAppend(db.treasuryTxs, t, Funding());
    forall m ensures MerchantBook(next.journals, next.invoices, next.payments, next.payouts, m) {
      assert MerchantBook(db.journals, db.invoices, db.payments, db.payouts, m);
      FundLinesMove(amount, Merchant(m), PENDING);
      FundLinesMove(amount, Merchant(m), SETTLING);
      FundLinesMove(amount, Merchant(m), AVAILABLE);
    }
    forall h | KnownTx(db.treasuryTxs, h) ensures KnownTx(next.treasuryTxs, h) {
      var k :| 0 <= k < |db.treasuryTxs| && db.treasuryTxs[k].txHash == h;
      assert next.treasuryTxs[k] == db.treasuryTxs[k];
    }
    assert next.treasuryTxs[|db.treasuryTxs|] == t;
    PayoutMarks(db, next, draft.reference, TreasuryFunded(txHash), Entries(draft.lines));
    assert PendingHeld(next.journals, next.invoices, next.payments);
  }
}
