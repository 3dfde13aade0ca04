/**
 What the payout table's own constraints keep: one unfinished payout a merchant, a transaction hash on one row only, and
 no sent payout without its signature, settled one without its hash or locked one without its GRAM.
 */
module PayoutRows {
  import opened Basics
  import opened Ledger
  import opened Pipeline

  ghost predicate Evidenced(p: Payout) {
    && (p.status !in {CREATED, QUEUED, FAILED} ==> p.gram.Some?)
    && (p.status in {SIGNED, BROADCASTED, CONFIRMING, SETTLED} ==> p.signingReference.Some?)
    && (p.status == SETTLED ==> p.txHash.Some?)
  }

  ghost predicate AllEvidenced(ps: seq<Payout>) {
    forall k :: 0 <= k < |ps| ==> Evidenced(ps[k])
  }

  ghost predicate HashesDistinct(ps: seq<Payout>) {
    forall j, k :: 0 <= j < k < |ps| && ps[j].txHash.Some? ==> ps[j].txHash != ps[k].txHash
  }

  ghost predicate OneUnfinished(ps: seq<Payout>) {
    forall j, k :: 0 <= j < k < |ps| && ps[j].merchant == ps[k].merchant ==> Terminal(ps[j].status) || Terminal(ps[k].status)
  }

  ghost predicate Conforms(ps: seq<Payout>) {
    AllEvidenced(ps) && HashesDistinct(ps) && OneUnfinished(ps)
  }

  /** One row changes to one that the table accepts; a finished payout stays finished. */
  ghost predicate RowMove(ps: seq<Payout>, qs: seq<Payout>, id: nat) {
    && id < |ps| && |qs| == |ps| && qs == ps[id := qs[id]]
    && qs[id].merchant == ps[id].merchant
    && (Terminal(ps[id].status) ==> Terminal(qs[id].status))
    && Evidenced(qs[id])
    && (qs[id].txHash == ps[id].txHash || !HashTaken(ps, id, qs[id].txHash))
  }

  lemma RowMoveConforms(ps: seq<Payout>, qs: seq<Payout>, id: nat)
    requires Conforms(ps) && RowMove(ps, qs, id)
    ensures Conforms(qs)
  {
    forall k | 0 <= k < |qs| ensures Evidenced(qs[k]) {
      assert k != id ==> Evidenced(ps[k]);
    }
  }

  /** Every row keeps merchant, hash and signature; none becomes sent, settled or unfinished again. */
  ghost predicate RowsEase(ps: seq<Payout>, qs: seq<Payout>) {
    && |qs| == |ps|
    && forall k :: 0 <= k < |ps| ==>
         qs[k] == ps[k] || (qs[k] == ps[k].(status := qs[k].status, updatedAt := qs[k].updatedAt)
                            && ps[k].status == RESERVED && qs[k].status == RATE_LOCKED)
  }

  lemma RowsEaseConforms(ps: seq<Payout>, qs: seq<Payout>)
    requires Conforms(ps) && RowsEase(ps, qs)
    ensures Conforms(qs)
  {
    forall k | 0 <= k < |qs| ensures Evidenced(qs[k]) {
      assert Evidenced(ps[k]);
    }
  }

  ghost predicate RowAdded(ps: seq<Payout>, qs: seq<Payout>) {
    && |qs| == |ps| + 1 && qs == ps + [qs[|ps|]]
    && qs[|ps|].status == QUEUED && qs[|ps|].txHash.None? && !HasUnfinished(ps, qs[|ps|].merchant)
  }

  lemma RowAddedConforms(ps: seq<Payout>, qs: seq<Payout>)
    requires Conforms(ps) && RowAdded(ps, qs)
    ensures Conforms(qs)
  {
    forall k | 0 <= k < |qs| ensures Evidenced(qs[k]) {
      assert k < |ps| ==> Evidenced(ps[k]);
    }
    forall j, k | 0 <= j < k < |qs| && qs[j].merchant == qs[k].merchant ensures Terminal(qs[j].status) || Terminal(qs[k].status) {
      assert j < |ps| && qs[j] == ps[j];
    }
  }

  ghost predicate Moves(ps: seq<Payout>, qs: seq<Payout>) {
    qs == ps || RowAdded(ps, qs) || RowsEase(ps, qs) || exists id :: RowMove(ps, qs, id)
  }

  lemma MovesConform(ps: seq<Payout>, qs: seq<Payout>)
    requires Conforms(ps) && Moves(ps, qs)
    ensures Conforms(qs)
  {
    if RowAdded(ps, qs) {
      RowAddedConforms(ps, qs);
    } else if RowsEase(ps, qs) {
      RowsEaseConforms(ps, qs);
    } else if id :| RowMove(ps, qs, id) {
      RowMoveConforms(ps, qs, id);
    }
  }

  // ---------------------------------------------------------------------------
  // Transaction by transaction
  // ---------------------------------------------------------------------------

  lemma MoveOne(ps: seq<Payout>, qs: seq<Payout>, id: nat)
    requires qs != ps ==> RowMove(ps, qs, id)
    ensures Moves(ps, qs)
  {
  }

  lemma TransitionMoves(ps: seq<Payout>, id: nat, from: set<PayoutStatus>, row: Payout, to: PayoutStatus)
    requires id < |ps| && row.merchant == ps[id].merchant && row.gram == ps[id].gram && AllEvidenced(ps)
    requires to != SETTLED && from <= {RESERVED, SIGNED, BROADCASTED, CONFIRMING}
    ensures var r := Transition(ps, id, from, row, to); r.Ok? ==> RowMove(ps, r.value, id)
  {
  }

  lemma QueueMoves(db: Db, q: QueueRequest)
    ensures Moves(db.payouts, QueuePayout(db, q).db.payouts)
  {
    var qs := QueuePayout(db, q).db.payouts;
    assert qs != db.payouts ==> RowAdded(db.payouts, qs);
  }

  lemma LockMoves(db: Db, id: nat, quote: string, source: string, expired: bool, now: int)
    requires AllEvidenced(db.payouts)
    ensures Moves(db.payouts, LockRate(db, id, quote, source, expired, now).db.payouts)
  {
    MoveOne(db.payouts, LockRate(db, id, quote, source, expired, now).db.payouts, id);
  }

  lemma ReserveMoves(db: Db, id: nat, now: int, ttl: int)
    requires AllEvidenced(db.payouts)
    ensures Moves(db.payouts, ReserveLiquidity(db, id, now, ttl).db.payouts)
  {
    MoveOne(db.payouts, ReserveLiquidity(db, id, now, ttl).db.payouts, id);
  }

  lemma SignatureMoves(db: Db, id: nat, reference: string, now: int)
    requires AllEvidenced(db.payouts)
    ensures Moves(db.payouts, RecordSignature(db, id, reference, now).db.payouts)
  {
    if id < |db.payouts| {
      TransitionMoves(db.payouts, id, {RESERVED}, db.payouts[id].(signingReference := Some(reference), updatedAt := now), SIGNED);
    }
    MoveOne(db.payouts, RecordSignature(db, id, reference, now).db.payouts, id);
  }

  lemma PrepareMoves(db: Db, id: nat, now: int, gateOpen: bool, wallet: Option<Wallet>)
    requires AllEvidenced(db.payouts)
    ensures Moves(db.payouts, PrepareBroadcast(db, id, now, gateOpen, wallet).db.payouts)
  {
    assert id < |db.payouts| ==> Evidenced(db.payouts[id]);
    MoveOne(db.payouts, PrepareBroadcast(db, id, now, gateOpen, wallet).db.payouts, id);
  }

  lemma BroadcastMoves(db: Db, id: nat, txHash: Option<string>, now: int)
    requires AllEvidenced(db.payouts)
    ensures Moves(db.payouts, RecordBroadcast(db, id, txHash, now).db.payouts)
  {
    if id < |db.payouts| {
      TransitionMoves(db.payouts, id, {SIGNED}, db.payouts[id].(txHash := txHash, updatedAt := now), BROADCASTED);
    }
    MoveOne(db.payouts, RecordBroadcast(db, id, txHash, now).db.payouts, id);
  }

  lemma UnknownMoves(db: Db, id: nat, now: int)
    requires AllEvidenced(db.payouts)
    ensures Moves(db.payouts, MarkUnknown(db, id, now).db.payouts)
  {
    if id < |db.payouts| {
      TransitionMoves(db.payouts, id, {RESERVED, SIGNED, BROADCASTED, CONFIRMING}, db.payouts[id].(updatedAt := now), UNKNOWN);
    }
    MoveOne(db.payouts, MarkUnknown(db, id, now).db.payouts, id);
  }

  lemma ConfirmingMoves(db: Db, id: nat, txHash: string, now: int)
    requires AllEvidenced(db.payouts)
    ensures Moves(db.payouts, MarkConfirming(db, id, txHash, now).db.payouts)
  {
    if id < |db.payouts| {
      TransitionMoves(db.payouts, id, {BROADCASTED}, db.payouts[id].(txHash := Some(txHash), updatedAt := now), CONFIRMING);
    }
    MoveOne(db.payouts, MarkConfirming(db, id, txHash, now).db.payouts, id);
  }

  lemma SettleMoves(db: Db, id: nat, ev: ChainEvidence, required: int, now: int)
    requires AllEvidenced(db.payouts)
    ensures Moves(db.payouts, SettlePayout(db, id, ev, required, now).db.payouts)
  {
    MoveOne(db.payouts, SettlePayout(db, id, ev, required, now).db.payouts, id);
  }

  lemma FailMoves(db: Db, id: nat, now: int)
    ensures Moves(db.payouts, FailPayout(db, id, now).db.payouts)
  {
    MoveOne(db.payouts, FailPayout(db, id, now).db.payouts, id);
  }

  lemma ResetMoves(db: Db, id: nat, now: int)
    requires AllEvidenced(db.payouts)
    ensures Moves(db.payouts, ResetNotFound(db, id, now).db.payouts)
  {
    MoveOne(db.payouts, ResetNotFound(db, id, now).db.payouts, id);
  }

  lemma ExpireMoves(db: Db, now: int)
    ensures Moves(db.payouts, ExpireReservations(db, now).db.payouts)
  {
    assert RowsEase(db.payouts, Unreserve(db.payouts, db.reservations, now));
  }

  lemma OthersMove(db: Db, op: Operation)
    requires op.OpCreateInvoice? || op.OpCancelInvoice? || op.OpExpireInvoices? || op.OpFinalizePayment? || op.OpSetHold?
             || op.OpReleasePayment? || op.OpFundTreasury?
    ensures Apply(db, op).payouts == db.payouts
  {
  }

  lemma SendStepMoves(db: Db, op: Operation)
    requires AllEvidenced(db.payouts)
    requires op.OpRecordSignature? || op.OpPrepareBroadcast? || op.OpRecordBroadcast? || op.OpMarkUnknown? || op.OpMarkConfirming?
    ensures Moves(db.payouts, Apply(db, op).payouts)
  {
    match op
    case OpRecordSignature(id, reference, now) => SignatureMoves(db, id, reference, now);
    case OpPrepareBroadcast(id, now, gate, wallet) => PrepareMoves(db, id, now, gate, wallet);
    case OpRecordBroadcast(id, txHash, now) => BroadcastMoves(db, id, txHash, now);
    case OpMarkUnknown(id, now) => UnknownMoves(db, id, now);
    case OpMarkConfirming(id, txHash, now) => ConfirmingMoves(db, id, txHash, now);
  }

  lemma ApplyConforms(db: Db, op: Operation)
    requires Conforms(db.payouts)
    ensures Conforms(Apply(db, op).payouts)
  {
    match op {
      case OpQueuePayout(q) => QueueMoves(db, q);
      case OpLockRate(id, quote, source, expired, now) => LockMoves(db, id, quote, source, expired, now);
      case OpReserveLiquidity(id, now, ttl) => ReserveMoves(db, id, now, ttl);
      case OpSettlePayout(id, ev, required, now) => SettleMoves(db, id, ev, required, now);
      case OpFailPayout(id, now) => FailMoves(db, id, now);
      case OpResetNotFound(id, now) => ResetMoves(db, id, now);
      case OpExpireReservations(now) => ExpireMoves(db, now);
      case OpRecordSignature(_, _, _) => SendStepMoves(db, op);
      case OpPrepareBroadcast(_, _, _, _) => SendStepMoves(db, op);
      case OpRecordBroadcast(_, _, _) => SendStepMoves(db, op);
      case OpMarkUnknown(_, _) => SendStepMoves(db, op);
      case OpMarkConfirming(_, _, _) => SendStepMoves(db, op);
      case _ => OthersMove(db, op);
    }
    MovesConform(db.payouts, Apply(db, op).payouts);
  }

  lemma {:induction false} RunConforms(db: Db, ops: seq<Operation>)
    requires Conforms(db.payouts)
    ensures Conforms(Run(db, ops).payouts)
  {
    if ops != [] {
      RunConforms(db, ops[..|ops| - 1]);
      ApplyConforms(Run(db, ops[..|ops| - 1]), ops[|ops| - 1]);
    }
  }
}
