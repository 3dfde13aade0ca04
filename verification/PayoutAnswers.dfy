/**
 What each payout transaction answers and stores, said of the rows themselves: when it succeeds, which row it writes,
 and that nothing else changes.
 */
module PayoutAnswers {
  import opened Basics
  import opened Decimal
  import opened MoneyMath
  import opened Sums
  import opened Ledger
  import opened Pipeline
  import opened PipelineInvariants
  import opened PayoutRows
  import opened PipelineTheorems
  import P = PayoutSteps

  // ---------------------------------------------------------------------------
  // Rate and liquidity
  // ---------------------------------------------------------------------------

  /** `gram` is what the Toman amount buys, cut to whole nanoGRAM. */
  predicate Buys(toman: int, rate: Rate, gram: int) {
    gram * rate.scaled <= toman * (1_000_000_000 * Pow10(rate.scale)) < (gram + 1) * rate.scaled
  }

  /** A waiting payout may be locked again, and the old amount plays no part. */
  lemma LockAnswers(db: Db, id: nat, quote: string, source: string, expired: bool, now: int, gram: int)
    ensures var s := LockRate(db, id, quote, source, expired, now);
            && (s.result == Ok(gram) <==>
                  && id < |db.payouts| && db.payouts[id].status in {QUEUED, WAITING_LIQUIDITY} && !expired
                  && RateOf(quote, source).Ok? && RateOf(quote, source).value.scaled < RATE_LIMIT
                  && Buys(db.payouts[id].amount, RateOf(quote, source).value, gram) && 0 < gram <= MAX_GRAM)
            && (s.result == Ok(gram) ==>
                  s.db == db.(payouts := db.payouts[id := db.payouts[id].(gram := Some(gram), status := RATE_LOCKED, updatedAt := now)]))
            && (s.result.Err? ==> s.db == db)
  {
    if id < |db.payouts| && RateOf(quote, source).Ok? {
      BuysOne(db.payouts[id].amount, RateOf(quote, source).value, gram);
    }
  }

  lemma BuysOne(toman: int, rate: Rate, gram: int)
    ensures Buys(toman, rate, gram) <==> gram == NanoGram(toman, rate, FLOOR)
  {
    var n := toman * (1_000_000_000 * Pow10(rate.scale));
    assert n == toman * Unit(rate);
    RoundedIsRounding(n, rate.scaled, FLOOR);
    if Buys(toman, rate, gram) {
      assert (gram + 1) * rate.scaled == gram * rate.scaled + rate.scaled;
      RoundingIsUnique(n, rate.scaled, FLOOR, gram, Rounded(n, rate.scaled, FLOOR));
    }
    assert (Rounded(n, rate.scaled, FLOOR) + 1) * rate.scaled == Rounded(n, rate.scaled, FLOOR) * rate.scaled + rate.scaled;
  }

  function Promise(): Reservation -> int {
    (r: Reservation) => match r.status case ACTIVE => r.amount case _ => 0
  }

  /** Liquidity is promised exactly when the treasury holds it on top of every promise and the safety reserve. */
  lemma ReserveAnswers(db: Db, id: nat, now: int, ttl: int)
    requires Reachable(db)
    ensures var s := ReserveLiquidity(db, id, now, ttl);
            var free := db.confirmed - Sum(db.reservations, Promise()) - db.safety;
            if id >= |db.payouts| then s == Step(db, Err(NotFound))
            else if db.payouts[id].status != RATE_LOCKED then s == Step(db, Err(NotInExpectedState))
            else
              && db.payouts[id].gram.Some?
              && var need := db.payouts[id].gram.value;
                 s == if need <= free
                      then Step(db.(payouts := db.payouts[id := db.payouts[id].(status := RESERVED, updatedAt := now)],
                                    reservations := db.reservations + [Reservation(id, need, ACTIVE, now + ttl)]),
                                Ok(Reserved(|db.reservations|, need)))
                      else Step(db.(payouts := db.payouts[id := db.payouts[id].(status := WAITING_LIQUIDITY, updatedAt := now)]),
                                Ok(Waiting(need, free)))
  {
    ReachableConforms(db);
    assert id < |db.payouts| ==> Evidenced(db.payouts[id]);
    SumSame(db.reservations, ActiveAmount(), Promise());
    AmountGuardsNeverFire(db, id, now, true, "", true, true, None, ttl);
  }

  // ---------------------------------------------------------------------------
  // Sign and broadcast
  // ---------------------------------------------------------------------------

  /** The payout has liquidity promised that has not expired. */
  predicate Promised(db: Db, id: nat, now: int) {
    exists k :: 0 <= k < |db.reservations| && db.reservations[k].payout == id && db.reservations[k].status == ACTIVE
                && now < db.reservations[k].expiresAt
  }

  lemma FoundIsPromised(db: Db, id: nat, now: int)
    requires Reachable(db)
    ensures FindActive(db.reservations, id, now).Some? <==> Promised(db, id, now)
    ensures FindActive(db.reservations, id, now).Some? ==>
              id < |db.payouts| && db.payouts[id].gram == Some(db.reservations[FindActive(db.reservations, id, now).value].amount)
  {
    AmountGuardsNeverFire(db, id, now, true, "", true, true, None, 0);
    var found := FindActive(db.reservations, id, now);
    if found.Some? {
      assert db.reservations[found.value].payout == id && now < db.reservations[found.value].expiresAt;
    }
  }

  /** What is offered for signing is the locked row, reserved and unexpired; a signed payout gives back its signature. */
  lemma SignableAnswers(db: Db, id: nat, now: int, assetIsGram: bool, network: string, addressValid: bool)
    requires Reachable(db)
    ensures var r := CheckSignable(db, id, now, assetIsGram, network, addressValid);
            if id >= |db.payouts| then r == Err(NotFound)
            else
              var p := db.payouts[id];
              if p.status == SIGNED then p.signingReference.Some? && r == Ok(AlreadySigned(p.signingReference.value))
              else if p.status != RESERVED then r == Err(NotInExpectedState)
              else if !assetIsGram then r == Err(AssetMismatch)
              else if p.network != network then r == Err(NetworkMismatch)
              else if !addressValid then r == Err(WalletInvalid)
              else if !Promised(db, id, now) then r == Err(ReservationMissingOrExpired)
              else p.gram.Some? && r == Ok(ReadyToSign(p.gram.value, p.destination, p.network))
  {
    ReachableConforms(db);
    if id < |db.payouts| {
      assert Evidenced(db.payouts[id]);
      FoundIsPromised(db, id, now);
    }
  }

  /** The first signature is kept: a second one changes nothing and gets the first. */
  lemma SignatureAnswers(db: Db, id: nat, reference: string, now: int)
    requires Reachable(db)
    ensures var s := RecordSignature(db, id, reference, now);
            if id >= |db.payouts| then s == Step(db, Err(NotFound))
            else
              var p := db.payouts[id];
              match p.status
              case SIGNED => p.signingReference.Some? && s == Step(db, Ok(p.signingReference.value))
              case RESERVED =>
                s == Step(db.(payouts := db.payouts[id := p.(signingReference := Some(reference), status := SIGNED, updatedAt := now)]),
                          Ok(reference))
              case _ => s == Step(db, Err(NotInExpectedState))
  {
    ReachableConforms(db);
    assert id < |db.payouts| ==> Evidenced(db.payouts[id]) && !HashTaken(db.payouts, id, db.payouts[id].txHash);
  }

  /** A send takes a signed payout, an open gate, live liquidity and an unchanged wallet; it counts the attempt. */
  lemma PrepareAnswers(db: Db, id: nat, now: int, gateOpen: bool, wallet: Option<Wallet>)
    requires Reachable(db)
    ensures var s := PrepareBroadcast(db, id, now, gateOpen, wallet);
            if id >= |db.payouts| then s == Step(db, Err(NotFound))
            else
              var p := db.payouts[id];
              if p.status != SIGNED then s == Step(db, Err(NotInExpectedState))
              else if !gateOpen then s == Step(db, Ok(QueuedForOrder))
              else if !Promised(db, id, now) then s == Step(db, Err(ReservationMissingOrExpired))
              else if wallet.None? || wallet.value.address != p.destination || wallet.value.network != p.network
              then s == Step(db, Err(DestinationMismatch))
              else
                && p.gram.Some?
                && s == Step(db.(payouts := db.payouts[id := p.(attempts := p.attempts + 1, updatedAt := now)]),
                             Ok(Send(p.gram.value, p.destination, p.network)))
  {
    FoundIsPromised(db, id, now);
  }

  predicate Carried(db: Db, id: nat, txHash: string) {
    exists k :: 0 <= k < |db.payouts| && k != id && db.payouts[k].txHash == Some(txHash)
  }

  lemma BroadcastAnswers(db: Db, id: nat, txHash: Option<string>, now: int)
    requires Reachable(db)
    ensures var s := RecordBroadcast(db, id, txHash, now);
            if id >= |db.payouts| then s == Step(db, Err(NotFound))
            else if db.payouts[id].status != SIGNED then s == Step(db, Err(NotInExpectedState))
            else if txHash.Some? && Carried(db, id, txHash.value) then s == Step(db, Err(TxHashTaken))
            else s == Step(db.(payouts := db.payouts[id := db.payouts[id].(txHash := txHash, status := BROADCASTED, updatedAt := now)]),
                           Ok(()))
  {
    ReachableConforms(db);
    assert id < |db.payouts| ==> Evidenced(db.payouts[id]);
    if txHash.Some? && HashTaken(db.payouts, id, txHash) { assert Carried(db, id, txHash.value); }
  }

  lemma ConfirmingAnswers(db: Db, id: nat, txHash: string, now: int)
    requires Reachable(db)
    ensures var s := MarkConfirming(db, id, txHash, now);
            if id >= |db.payouts| || db.payouts[id].status != BROADCASTED then s == Step(db, Ok(false))
            else if Carried(db, id, txHash) then s == Step(db, Err(TxHashTaken))
            else s == Step(db.(payouts := db.payouts[id := db.payouts[id].(txHash := Some(txHash), status := CONFIRMING, updatedAt := now)]),
                           Ok(true))
  {
    ReachableConforms(db);
    assert id < |db.payouts| ==> Evidenced(db.payouts[id]);
    if HashTaken(db.payouts, id, Some(txHash)) { assert Carried(db, id, txHash); }
  }

  /** Only a payout that is reserved or further, and not finished, becomes UNKNOWN; it keeps hash and signature. */
  lemma UnknownAnswers(db: Db, id: nat, now: int)
    requires Reachable(db)
    ensures var s := MarkUnknown(db, id, now);
            if id >= |db.payouts| then s == Step(db, Err(NotFound))
            else
              match db.payouts[id].status
              case RESERVED | SIGNED | BROADCASTED | CONFIRMING =>
                s == Step(db.(payouts := db.payouts[id := db.payouts[id].(status := UNKNOWN, updatedAt := now)]), Ok(()))
              case _ => s == Step(db, Err(NotInExpectedState))
  {
    ReachableConforms(db);
    assert id < |db.payouts| ==> !HashTaken(db.payouts, id, db.payouts[id].txHash);
  }

  lemma ResetAnswers(db: Db, id: nat, now: int)
    ensures ResetNotFound(db, id, now)
         == Step(if id < |db.payouts| && db.payouts[id].status == UNKNOWN
                 then db.(payouts := db.payouts[id := db.payouts[id].(status := RESERVED, updatedAt := now)])
                 else db, Ok(()))
  {
  }

  // ---------------------------------------------------------------------------
  // Expiry
  // ---------------------------------------------------------------------------

  /** The reservation ran out before `now`. */
  predicate RanOut(r: Reservation, now: int) { r.status == ACTIVE && r.expiresAt < now }

  /** Exactly the promises that ran out lapse, and exactly their RESERVED payouts are locked again. */
  lemma ExpiryAnswers(db: Db, now: int)
    ensures var next := ExpireReservations(db, now).db;
            && next == db.(reservations := next.reservations, payouts := next.payouts)
            && |next.reservations| == |db.reservations| && |next.payouts| == |db.payouts|
            && (forall k :: 0 <= k < |db.reservations| ==>
                  next.reservations[k] == if RanOut(db.reservations[k], now) then db.reservations[k].(status := EXPIRED)
                                          else db.reservations[k])
            && (forall k :: 0 <= k < |db.payouts| ==>
                  next.payouts[k] == if db.payouts[k].status == RESERVED
                                        && exists j :: 0 <= j < |db.reservations| && db.reservations[j].payout == k
                                                       && RanOut(db.reservations[j], now)
                                     then db.payouts[k].(status := RATE_LOCKED, updatedAt := now) else db.payouts[k])
  {
    var next := ExpireReservations(db, now).db;
    forall k | 0 <= k < |db.payouts|
      ensures HasStale(db.reservations, k, now) <==>
                exists j :: 0 <= j < |db.reservations| && db.reservations[j].payout == k && RanOut(db.reservations[j], now)
    {
      if HasStale(db.reservations, k, now) {
        var j :| 0 <= j < |db.reservations| && db.reservations[j].payout == k && Stale(db.reservations[j], now);
        assert RanOut(db.reservations[j], now);
      }
      if j :| 0 <= j < |db.reservations| && db.reservations[j].payout == k && RanOut(db.reservations[j], now) {
        assert Stale(db.reservations[j], now);
      }
    }
  }

  // ---------------------------------------------------------------------------
  // Settle and fail
  // ---------------------------------------------------------------------------

  /** The payout's ACTIVE reservations take the status, the others stay. */
  ghost predicate Closed(before: seq<Reservation>, after: seq<Reservation>, id: nat, status: ReservationStatus) {
    && |after| == |before|
    && forall k :: 0 <= k < |before| ==>
         after[k] == if before[k].payout == id && before[k].status == ACTIVE then before[k].(status := status) else before[k]
  }

  predicate Recorded(txs: seq<TreasuryTx>, txHash: string) {
    exists k :: 0 <= k < |txs| && txs[k].txHash == txHash
  }

  /** The transfer and, with a fee, the fee are added under their hashes, each unless its hash is there. */
  function WithTransfers(txs: seq<TreasuryTx>, txHash: string, total: int, fee: int): seq<TreasuryTx> {
    txs + (if Recorded(txs, txHash) then [] else [TreasuryTx(false, total, txHash)])
    + (if fee > 0 && !Recorded(txs, txHash + ":fee") then [TreasuryTx(false, fee, txHash + ":fee")] else [])
  }

  lemma TransfersAdded(txs: seq<TreasuryTx>, ev: ChainEvidence, gram: int, fee: int)
    ensures SettleTxs(txs, ev, gram, fee) == WithTransfers(txs, ev.txHash, gram + fee, fee)
  {
    var paid := InsertTx(txs, TreasuryTx(false, gram + fee, ev.txHash));
    assert ev.txHash + ":fee" != ev.txHash by { assert |ev.txHash + ":fee"| > |ev.txHash|; }
    forall h ensures KnownTx(txs, h) <==> Recorded(txs, h) {
    }
    assert KnownTx(paid, ev.txHash + ":fee") <==> KnownTx(txs, ev.txHash + ":fee") by {
      if k :| 0 <= k < |txs| && txs[k].txHash == ev.txHash + ":fee" { assert paid[k] == txs[k]; }
      if k :| 0 <= k < |paid| && paid[k].txHash == ev.txHash + ":fee" { assert k < |txs| && paid[k] == txs[k]; }
    }
  }

  /** Merchant liability against clearing in Toman; principal and fee against the treasury in GRAM. */
  function SettlementMove(p: Payout, gram: int, fee: int, a: AccountId, b: Bucket): int {
    if a == Merchant(p.merchant) then (if b == SETTLING then -p.amount else 0)
    else if b != AVAILABLE then 0
    else match a
         case System(SettlementClearingToman) => -p.amount
         case System(SettlementClearingGram) => gram
         case System(NetworkFeeExpenseGram) => fee
         case System(TreasuryGram) => -(gram + fee)
         case _ => 0
  }

  /** What a settlement leaves: row, reservations, treasury, transfers, journal and balances. */
  ghost predicate SettledAs(db: Db, next: Db, id: nat, ev: ChainEvidence, fee: int, now: int) {
    && id < |db.payouts|
    && next == db.(journals := next.journals, reservations := next.reservations,
                   payouts := db.payouts[id := db.payouts[id].(status := SETTLED, txHash := Some(ev.txHash), updatedAt := now)],
                   confirmed := db.confirmed - (ev.amount + fee),
                   treasuryTxs := WithTransfers(db.treasuryTxs, ev.txHash, ev.amount + fee, fee))
    && Closed(db.reservations, next.reservations, id, CONSUMED)
    && Booked(db, next, PayoutRef(id), PayoutSettled(id))
    && forall a, b :: Moved(db, next, a, b) == SettlementMove(db.payouts[id], ev.amount, fee, a, b)
  }

  lemma SettlementStores(db: Db, id: nat, ev: ChainEvidence, required: int, now: int)
    requires Reachable(db) && SettlePayout(db, id, ev, required, now).result == Ok(true)
    ensures SettledAs(db, SettlePayout(db, id, ev, required, now).db, id, ev,
                      if ev.networkFee.Some? then ev.networkFee.value else 0, now)
  {
    ReachableHolds(db);
    SettlesExactlyWhenCovered(db, id, ev, required, now);
    assert PayoutBacked(db.payouts[id], id, db.reservations);
    SettledStores(db, id, ev, if ev.networkFee.Some? then ev.networkFee.value else 0, required, now);
  }

  lemma SettledStores(db: Db, id: nat, ev: ChainEvidence, fee: int, required: int, now: int)
    requires SettlePayout(db, id, ev, required, now).result == Ok(true)
    requires id < |db.payouts| && db.payouts[id].gram == Some(ev.amount) && HasReservation(db.reservations, id)
    requires fee == if ev.networkFee.Some? then ev.networkFee.value else 0
    requires fee >= 0
    ensures SettledAs(db, SettlePayout(db, id, ev, required, now).db, id, ev, fee, now)
  {
    SettleShape(db, id, ev, ev.amount, fee, required, now);
    SettledFrom(db, SettlePayout(db, id, ev, required, now).db, id, ev, fee, now);
  }

  lemma SettledFrom(db: Db, next: Db, id: nat, ev: ChainEvidence, fee: int, now: int)
    requires id < |db.payouts| && fee >= 0
    requires var r := Posting(db.journals, SettleDraft(db.payouts[id], id, ev.amount, fee)).result; r.Posted? && r.created
    requires next == db.(journals := Posting(db.journals, SettleDraft(db.payouts[id], id, ev.amount, fee)).journals,
                         payouts := db.payouts[id := db.payouts[id].(status := SETTLED, txHash := Some(ev.txHash), updatedAt := now)],
                         reservations := Resolve(db.reservations, id, CONSUMED),
                         confirmed := db.confirmed - (ev.amount + fee),
                         treasuryTxs := SettleTxs(db.treasuryTxs, ev, ev.amount, fee))
    ensures SettledAs(db, next, id, ev, fee, now)
  {
    TransfersAdded(db.treasuryTxs, ev, ev.amount, fee);
    SettlementMoves(db.journals, db.payouts[id], id, ev.amount, fee);
  }

  lemma SettlementMoves(js: seq<Journal>, p: Payout, id: nat, gram: int, fee: int)
    requires fee >= 0
    requires var r := Posting(js, SettleDraft(p, id, gram, fee)).result; r.Posted? && r.created
    ensures var after := Posting(js, SettleDraft(p, id, gram, fee)).journals;
            && |after| == |js| + 1 && after[..|js|] == js
            && after[|js|].reference == PayoutRef(id) && after[|js|].operationId == PayoutSettled(id)
            && forall a, b :: Balance(after, a, b) - Balance(js, a, b) == SettlementMove(p, gram, fee, a, b)
  {
    PostedMoves(js, SettleDraft(p, id, gram, fee));
    forall a, b ensures Sum(SettleLines(p, gram, fee), LineMoves(a, b)) == SettlementMove(p, gram, fee, a, b) {
      SettleSum(p, gram, fee, LineMoves(a, b));
    }
  }

  lemma SettleShape(db: Db, id: nat, ev: ChainEvidence, gram: int, fee: int, required: int, now: int)
    requires SettlePayout(db, id, ev, required, now).result == Ok(true)
    requires id < |db.payouts| && db.payouts[id].gram == Some(gram) && HasReservation(db.reservations, id)
    requires fee == if ev.networkFee.Some? then ev.networkFee.value else 0
    ensures var posting := Posting(db.journals, SettleDraft(db.payouts[id], id, gram, fee));
            && posting.result.Posted? && posting.result.created
            && SettlePayout(db, id, ev, required, now).db
               == db.(journals := posting.journals,
                      payouts := db.payouts[id := db.payouts[id].(status := SETTLED, txHash := Some(ev.txHash), updatedAt := now)],
                      reservations := Resolve(db.reservations, id, CONSUMED),
                      confirmed := db.confirmed - (gram + fee),
                      treasuryTxs := SettleTxs(db.treasuryTxs, ev, gram, fee))
  {
  }

  /** A refused settlement changes nothing, a repeated one is told so, and evidence is judged in this order. */
  lemma SettlementRefuses(db: Db, id: nat, ev: ChainEvidence, required: int, now: int)
    requires Reachable(db)
    ensures var s := SettlePayout(db, id, ev, required, now);
            && (s.db != db ==> s.result == Ok(true))
            && (id >= |db.payouts| ==> s.result == Err(NotFound))
            && (id < |db.payouts| ==>
                  var p := db.payouts[id];
                  match p.status
                  case SETTLED => s.result == Ok(false)
                  case BROADCASTED | CONFIRMING | UNKNOWN =>
                    if !ev.assetIsGram then s.result == Err(AssetMismatch)
                    else if ev.network != p.network then s.result == Err(NetworkMismatch)
                    else if ev.destination != p.destination then s.result == Err(DestinationMismatch)
                    else if p.gram != Some(ev.amount) then s.result == Err(AmountMismatch)
                    else if ev.confirmations < required then s.result == Err(NotConfirmed)
                    else s.result != Ok(false)
                  case _ => s.result == Err(NotInExpectedState))
  {
    ReachableHolds(db);
    if id < |db.payouts| {
      assert PayoutBacked(db.payouts[id], id, db.reservations);
      UndoneUnlessSettled(db, id);
      JudgedInOrder(db, id, ev, required, now);
    } else {
      RefusedKeeps(db, id, ev, required, now);
    }
  }

  lemma RefusedKeeps(db: Db, id: nat, ev: ChainEvidence, required: int, now: int)
    ensures SettlePayout(db, id, ev, required, now).db != db ==> SettlePayout(db, id, ev, required, now).result == Ok(true)
  {
  }

  lemma JudgedInOrder(db: Db, id: nat, ev: ChainEvidence, required: int, now: int)
    requires id < |db.payouts|
    requires db.payouts[id].status in {BROADCASTED, CONFIRMING, UNKNOWN} ==> db.payouts[id].gram.Some?
    requires db.payouts[id].status != SETTLED ==> FindOperation(db.journals, PayoutSettled(id)).None?
    ensures var s := SettlePayout(db, id, ev, required, now);
            var p := db.payouts[id];
            && (s.db != db ==> s.result == Ok(true))
            && match p.status
               case SETTLED => s.result == Ok(false)
               case BROADCASTED | CONFIRMING | UNKNOWN =>
                 if !ev.assetIsGram then s.result == Err(AssetMismatch)
                 else if ev.network != p.network then s.result == Err(NetworkMismatch)
                 else if ev.destination != p.destination then s.result == Err(DestinationMismatch)
                 else if p.gram != Some(ev.amount) then s.result == Err(AmountMismatch)
                 else if ev.confirmations < required then s.result == Err(NotConfirmed)
                 else s.result != Ok(false)
               case _ => s.result == Err(NotInExpectedState)
  {
    RefusedKeeps(db, id, ev, required, now);
    if db.payouts[id].status in {BROADCASTED, CONFIRMING, UNKNOWN} && EvidenceError(db.payouts[id], ev, required).None? {
      PostedIsNotRepeated(db, id, ev, ev.amount, if ev.networkFee.Some? then ev.networkFee.value else 0, now);
    }
  }

  lemma PostedIsNotRepeated(db: Db, id: nat, ev: ChainEvidence, gram: int, fee: int, now: int)
    requires id < |db.payouts| && FindOperation(db.journals, PayoutSettled(id)).None?
    ensures PostSettlement(db, id, ev, gram, fee, now).result != Ok(false)
  {
  }

  lemma UndoneUnlessSettled(db: Db, id: nat)
    requires Inv(db) && id < |db.payouts|
    ensures db.payouts[id].status != SETTLED ==> FindOperation(db.journals, PayoutSettled(id)).None?
    ensures db.payouts[id].status != FAILED ==> FindOperation(db.journals, PayoutFailed(id)).None?
  {
    if db.payouts[id].status != SETTLED { UndoneIsNew(db, PayoutSettled(id)); }
    if db.payouts[id].status != FAILED { UndoneIsNew(db, PayoutFailed(id)); }
  }

  /** Amount and instant fee go back to the merchant. */
  function FailureMove(p: Payout, a: AccountId, b: Bucket): int {
    if a == Merchant(p.merchant) then
      match b
      case SETTLING => -p.amount
      case AVAILABLE => p.amount + p.fee
      case _ => 0
    else if a == System(InstantWithdrawalRevenueToman) && b == AVAILABLE then -p.fee
    else 0
  }

  lemma FailShape(db: Db, id: nat, now: int)
    requires FailPayout(db, id, now).result == Ok(true)
    ensures id < |db.payouts|
    ensures var posting := Posting(db.journals, FailDraft(db.payouts[id], id));
            && posting.result.Posted? && posting.result.created
            && FailPayout(db, id, now).db
               == db.(journals := posting.journals,
                      payouts := db.payouts[id := db.payouts[id].(status := FAILED, updatedAt := now)],
                      reservations := Resolve(db.reservations, id, RELEASED))
  {
  }

  /** What a failure leaves, and what it answers otherwise. */
  lemma FailureStores(db: Db, id: nat, now: int)
    requires Reachable(db)
    ensures var s := FailPayout(db, id, now);
            if id >= |db.payouts| then s == Step(db, Err(NotFound))
            else
              var p := db.payouts[id];
              match p.status
              case FAILED => s == Step(db, Ok(false))
              case SETTLED => s == Step(db, Err(AlreadySettled))
              case UNKNOWN => s == Step(db, Err(UnknownNoBlindRetry))
              case _ =>
                && s.result == Ok(true)
                && s.db == db.(journals := s.db.journals, reservations := s.db.reservations,
                               payouts := db.payouts[id := p.(status := FAILED, updatedAt := now)])
                && Closed(db.reservations, s.db.reservations, id, RELEASED)
                && Booked(db, s.db, PayoutRef(id), PayoutFailed(id))
                && forall a, b :: Moved(db, s.db, a, b) == FailureMove(p, a, b)
  {
    ReachableHolds(db);
    if id < |db.payouts| {
      FailingNeverOverdraws(db, id, now);
      if FailPayout(db, id, now).result == Ok(true) {
        FailedStores(db, id, now);
      }
    }
  }

  lemma FailedStores(db: Db, id: nat, now: int)
    requires Inv(db) && FailPayout(db, id, now).result == Ok(true)
    ensures id < |db.payouts|
    ensures var next := FailPayout(db, id, now).db;
            && next == db.(journals := next.journals, reservations := next.reservations,
                           payouts := db.payouts[id := db.payouts[id].(status := FAILED, updatedAt := now)])
            && Closed(db.reservations, next.reservations, id, RELEASED)
            && Booked(db, next, PayoutRef(id), PayoutFailed(id))
            && forall a, b :: Moved(db, next, a, b) == FailureMove(db.payouts[id], a, b)
  {
    FailShape(db, id, now);
    var p := db.payouts[id];
    assert PayoutSane(p);
    PostedMoves(db.journals, FailDraft(p, id));
    forall a, b ensures Sum(FailLines(p), LineMoves(a, b)) == FailureMove(p, a, b) {
      FailSum(p, a, b);
    }
  }

  lemma FailSum(p: Payout, a: AccountId, b: Bucket)
    requires PayoutSane(p)
    ensures Sum(FailLines(p), LineMoves(a, b)) == FailureMove(p, a, b)
  {
    var base := [Debit(Merchant(p.merchant), Toman(p.amount), SETTLING), Credit(Merchant(p.merchant), Toman(p.amount), AVAILABLE)];
    var extra := if p.instant && p.fee > 0
      then [Debit(System(InstantWithdrawalRevenueToman), Toman(p.fee)), Credit(Merchant(p.merchant), Toman(p.fee), AVAILABLE)] else [];
    OptionalSums(base, [], extra, LineMoves(a, b));
    assert base + [] + extra == FailLines(p);
  }

  // ---------------------------------------------------------------------------
  // Fund and queue
  // ---------------------------------------------------------------------------

  lemma FundingStores(db: Db, amount: int, txHash: string)
    requires Reachable(db)
    ensures var s := FundTreasury(db, amount, txHash);
            if amount <= 0 then s == Step(db, Err(AmountNotPositive))
            else if amount > MAX_GRAM then s == Step(db, Err(AmountTooLarge))
            else if Recorded(db.treasuryTxs, txHash) then s == Step(db, Ok(false))
            else
              && s.result == Ok(true)
              && s.db == db.(journals := s.db.journals, confirmed := db.confirmed + amount,
                             treasuryTxs := db.treasuryTxs + [TreasuryTx(true, amount, txHash)])
              && Booked(db, s.db, TreasuryRef, TreasuryFunded(txHash))
              && forall a, b :: Moved(db, s.db, a, b) ==
                   if a in {System(TreasuryGram), System(TreasuryFundingEquity)} && b == AVAILABLE then amount else 0
  {
    assert KnownTx(db.treasuryTxs, txHash) <==> Recorded(db.treasuryTxs, txHash);
    FundsExactlyWhenNew(db, amount, txHash);
    if FundTreasury(db, amount, txHash).result == Ok(true) {
      ReachableHolds(db);
      FundedStores(db, amount, txHash);
    }
  }

  lemma FundedStores(db: Db, amount: int, txHash: string)
    requires Inv(db) && FundTreasury(db, amount, txHash).result == Ok(true)
    ensures var next := FundTreasury(db, amount, txHash).db;
            && next == db.(journals := next.journals, confirmed := db.confirmed + amount,
                           treasuryTxs := db.treasuryTxs + [TreasuryTx(true, amount, txHash)])
            && Booked(db, next, TreasuryRef, TreasuryFunded(txHash))
            && forall a, b :: Moved(db, next, a, b) ==
                 if a in {System(TreasuryGram), System(TreasuryFundingEquity)} && b == AVAILABLE then amount else 0
  {
    P.FundShape(db, amount, txHash);
    PostedMoves(db.journals, P.FundDraft(amount, txHash));
    var ls := FundLines(amount);
    forall a, b ensures Sum(ls, LineMoves(a, b)) ==
      if a in {System(TreasuryGram), System(TreasuryFundingEquity)} && b == AVAILABLE then amount else 0
    {
      Sum2(ls[0], ls[1], LineMoves(a, b));
    }
  }

  /** Gross leaves AVAILABLE; the net waits in SETTLING and the instant fee is earned. */
  function QueueMove(merchant: nat, gross: int, net: int, a: AccountId, b: Bucket): int {
    if a == Merchant(merchant) then
      match b
      case AVAILABLE => -gross
      case SETTLING => net
      case _ => 0
    else if a == System(InstantWithdrawalRevenueToman) && b == AVAILABLE then gross - net
    else 0
  }

  /** What queueing leaves: a new QUEUED row for the merchant's wallet, one journal, and the money moved. */
  ghost predicate QueuedAs(db: Db, next: Db, merchant: nat, instant: bool, gross: int, fee: int, w: Wallet, now: int) {
    var row := Payout(merchant, gross - fee, gross, fee, instant, None, w.address, w.network, QUEUED, None, None, 0, now);
    && next == db.(journals := next.journals, payouts := db.payouts + [row])
    && Booked(db, next, PayoutRef(|db.payouts|), PayoutQueued(|db.payouts|))
    && forall a, b :: Moved(db, next, a, b) == QueueMove(merchant, gross, gross - fee, a, b)
  }

  lemma QueueStores(db: Db, q: QueueRequest)
    requires Reachable(db) && QueuePayout(db, q).result.Ok? && QueuePayout(db, q).result.value.Queued?
    ensures var o := QueuePayout(db, q).result.value;
            && o.payout == |db.payouts| && o.net == o.gross - o.fee && q.wallet.Some?
            && QueuedAs(db, QueuePayout(db, q).db, q.merchant, q.instant, o.gross, o.fee, q.wallet.value, q.now)
  {
    QueuesExactlyWhenPayable(db, q);
    UnseenInFlight(db.payouts, q.merchant);
    PayableIsInserted(db, q);
    TwoPercent(Gross(db, q));
    QueuedStores(db, q.merchant, q.instant, Gross(db, q), QueueFee(db, q), q.wallet.value, q.now);
  }

  lemma QueuedStores(db: Db, merchant: nat, instant: bool, gross: int, fee: int, w: Wallet, now: int)
    requires 0 <= fee && InsertPayout(db, merchant, instant, gross, fee, w, now).result.Ok?
    ensures QueuedAs(db, InsertPayout(db, merchant, instant, gross, fee, w, now).db, merchant, instant, gross, fee, w, now)
  {
    P.InsertPayoutShape(db, merchant, instant, gross, fee, w, now);
    QueuedMoves(db.journals, |db.payouts|, merchant, gross, fee);
  }

  lemma QueuedMoves(js: seq<Journal>, id: nat, merchant: nat, gross: int, fee: int)
    requires fee >= 0
    requires var r := Posting(js, JournalDraft(PayoutRef(id), Some(PayoutQueued(id)), QueueLines(merchant, gross, gross - fee, fee))).result;
             r.Posted? && r.created
    ensures var after := Posting(js, JournalDraft(PayoutRef(id), Some(PayoutQueued(id)),
                                                  QueueLines(merchant, gross, gross - fee, fee))).journals;
            && |after| == |js| + 1 && after[..|js|] == js
            && after[|js|].reference == PayoutRef(id) && after[|js|].operationId == PayoutQueued(id)
            && forall a, b :: Balance(after, a, b) - Balance(js, a, b) == QueueMove(merchant, gross, gross - fee, a, b)
  {
    var ls := QueueLines(merchant, gross, gross - fee, fee);
    PostedMoves(js, JournalDraft(PayoutRef(id), Some(PayoutQueued(id)), ls));
    forall a, b ensures Sum(ls, LineMoves(a, b)) == QueueMove(merchant, gross, gross - fee, a, b) {
      var base := [Debit(Merchant(merchant), Toman(gross), AVAILABLE), Credit(Merchant(merchant), Toman(gross - fee), SETTLING)];
      var extra := if fee > 0 then [Credit(System(InstantWithdrawalRevenueToman), Toman(fee))] else [];
      OptionalSums(base, extra, [], LineMoves(a, b));
      assert base + extra + [] == ls;
    }
  }

  lemma UnqueuedStores(db: Db, q: QueueRequest)
    ensures var s := QueuePayout(db, q); s.db != db ==> s.result.Ok? && s.result.value.Queued?
  {
  }

  lemma AwaitedIsInFlight(s: PayoutStatus)
    ensures s in QUEUE_IN_FLIGHT <==> s !in {SIGNED, CONFIRMING, SETTLED, FAILED}
  {
    match s case _ =>
  }

  /** Why a merchant is passed over, the first reason that applies. */
  lemma QueueSkips(db: Db, q: QueueRequest)
    requires Reachable(db)
    ensures var r := QueuePayout(db, q).result;
            var available := Balance(db.journals, Merchant(q.merchant), AVAILABLE);
            var sought := exists k :: 0 <= k < |db.payouts| && db.payouts[k].merchant == q.merchant
                                      && db.payouts[k].status !in {SIGNED, CONFIRMING, SETTLED, FAILED};
            if !q.merchantActive then r == Ok(Skipped(NotActive))
            else if !q.instant && !q.autoPayout then r == Ok(Skipped(AutoPayoutDisabled))
            else if sought then r == Ok(Skipped(AlreadyInFlight))
            else if q.wallet.None? then r == Ok(Skipped(WalletNotActive))
            else if q.wallet.value.holdUntil.Some? && q.wallet.value.holdUntil.value > q.now then r == Ok(Skipped(WalletSecurityHold))
            else if q.requested.Some? && q.requested.value > available then r == Ok(Skipped(InsufficientBalance))
            else if (if q.requested.Some? then q.requested.value else available) < q.minPayout then r == Ok(Skipped(BelowMinimum))
            else r.Ok? && r.value.Skipped? ==> r.value.reason == NetNonPositive && Gross(db, q) == 0
  {
    assert HasInFlight(db.payouts, q.merchant) <==>
      exists k :: 0 <= k < |db.payouts| && db.payouts[k].merchant == q.merchant
                  && db.payouts[k].status !in {SIGNED, CONFIRMING, SETTLED, FAILED} by {
      if k :| 0 <= k < |db.payouts| && db.payouts[k].merchant == q.merchant
              && db.payouts[k].status !in {SIGNED, CONFIRMING, SETTLED, FAILED} {
        AwaitedIsInFlight(db.payouts[k].status);
      }
    }
    if Gross(db, q) >= 0 { TwoPercent(Gross(db, q)); }
  }
}
