/**
 Payout workers, the database and the chain together. One worker handles a payout at a time; it may crash between
 any two transactions. The chain keeps every transfer it was handed; one in flight may land or be dropped.
 */
module Protocol {
  import opened Basics
  import opened Pipeline

  datatype Fate = InFlight | Landed | Dropped

  datatype Transfer = Transfer(payout: nat, to: string, amount: int, fate: Fate)

  datatype SendOutcome = ACCEPTED | REJECTED | INDETERMINATE

  /** Where the worker of a payout stands between two transactions. */
  datatype Stage =
    | Idle
    | Sending(amount: int, destination: string)
    | Sent(outcome: SendOutcome)
    | SawLanded(paid: int, recipient: string)
    | SawNothing
    | Cleared

  datatype World = World(db: Db, chain: seq<Transfer>, stages: map<nat, Stage>)

  predicate Live(t: Transfer) { t.fate != Dropped }

  predicate HasLive(chain: seq<Transfer>, payout: nat) {
    exists i :: 0 <= i < |chain| && chain[i].payout == payout && Live(chain[i])
  }

  predicate HasLanded(chain: seq<Transfer>, payout: nat, to: string, amount: int) {
    exists i :: 0 <= i < |chain| && chain[i] == Transfer(payout, to, amount, Landed)
  }

  function StageOf(w: World, payout: nat): Stage {
    if payout in w.stages then w.stages[payout] else Idle
  }

  function At(w: World, payout: nat, s: Stage): World { w.(stages := w.stages[payout := s]) }

  // ---------------------------------------------------------------------------
  // Events
  // ---------------------------------------------------------------------------

  datatype Event =
    | Elsewhere(op: Operation)
    | Prepare(payout: nat, now: int, gateOpen: bool, wallet: Option<Wallet>)
    | Send(payout: nat, outcome: SendOutcome, reached: bool)
    | RecordSend(payout: nat, reported: Option<string>, now: int)
    | ObserveLanded(payout: nat, transfer: nat)
    | ObserveAbsent(payout: nat)
    | Settle(payout: nat, evidence: ChainEvidence, required: int, now: int)
    | Reset(payout: nat, now: int)
    | Fail(payout: nat, now: int)
    | Crash(payout: nat)
    | Land(transfer: nat)
    | Drop(transfer: nat)

  /** Transactions outside the broadcast and reconcile flows; those of a payout wait for its worker to be idle. */
  predicate MayRun(w: World, op: Operation) {
    match op
    case OpLockRate(id, _, _, _, _) => StageOf(w, id).Idle?
    case OpReserveLiquidity(id, _, _) => StageOf(w, id).Idle?
    case OpRecordSignature(id, _, _) => StageOf(w, id).Idle?
    case OpMarkConfirming(id, _, _) => StageOf(w, id).Idle?
    case OpPrepareBroadcast(_, _, _, _) => false
    case OpRecordBroadcast(_, _, _) => false
    case OpMarkUnknown(_, _) => false
    case OpSettlePayout(_, _, _, _) => false
    case OpFailPayout(_, _) => false
    case OpResetNotFound(_, _) => false
    case _ => true
  }

  function AfterPrepare(w: World, p: nat, now: int, gateOpen: bool, wallet: Option<Wallet>): World {
    if !StageOf(w, p).Idle? then w
    else
      var step := PrepareBroadcast(w.db, p, now, gateOpen, wallet);
      var next := w.(db := step.db);
      match step.result
      case Ok(Send(amount, destination, _)) => At(next, p, Sending(amount, destination))
      case _ => next
  }

  /**
   The adapter's side of the port contract: a key with a live transfer is not sent again and not rejected;
   ACCEPTED means the transfer is under way; an indeterminate answer may hide either.
   */
  function AfterSend(w: World, p: nat, outcome: SendOutcome, reached: bool): World {
    var s := StageOf(w, p);
    if !s.Sending? then w
    else if HasLive(w.chain, p) then (if outcome == REJECTED then w else At(w, p, Sent(outcome)))
    else if outcome == REJECTED || (outcome == INDETERMINATE && !reached) then At(w, p, Sent(outcome))
    else At(w, p, Sent(outcome)).(chain := w.chain + [Transfer(p, s.destination, s.amount, InFlight)])
  }

  ghost function AfterRecordSend(w: World, p: nat, reported: Option<string>, now: int): World {
    var s := StageOf(w, p);
    if !s.Sent? then w
    else
      var done := At(w, p, Idle);
      match s.outcome
      case ACCEPTED => done.(db := RecordBroadcast(w.db, p, reported, now).db)
      case INDETERMINATE => done.(db := MarkUnknown(w.db, p, now).db)
      case REJECTED => done.(db := FailPayout(w.db, p, now).db)
  }

  predicate Reconcilable(db: Db, p: nat) {
    p < |db.payouts| && db.payouts[p].status in {UNKNOWN, BROADCASTED, CONFIRMING}
  }

  function AfterObserveLanded(w: World, p: nat, k: nat): World {
    if StageOf(w, p).Idle? && Reconcilable(w.db, p) && k < |w.chain| && w.chain[k].payout == p && w.chain[k].fate == Landed
    then At(w, p, SawLanded(w.chain[k].amount, w.chain[k].to))
    else w
  }

  /** An absence that has aged past the observation window: nothing exists and nothing is on its way. */
  function AfterObserveAbsent(w: World, p: nat): World {
    if StageOf(w, p).Idle? && Reconcilable(w.db, p) && !HasLive(w.chain, p) then At(w, p, SawNothing) else w
  }

  ghost function AfterSettle(w: World, p: nat, ev: ChainEvidence, required: int, now: int): World {
    var s := StageOf(w, p);
    if !s.SawLanded? then w
    else At(w, p, Idle).(db := SettlePayout(w.db, p, ev.(amount := s.paid, destination := s.recipient), required, now).db)
  }

  function AfterReset(w: World, p: nat, now: int): World {
    if !StageOf(w, p).SawNothing? then w else At(w, p, Cleared).(db := ResetNotFound(w.db, p, now).db)
  }

  ghost function AfterFail(w: World, p: nat, now: int): World {
    if !StageOf(w, p).Cleared? then w else At(w, p, Idle).(db := FailPayout(w.db, p, now).db)
  }

  function AfterFate(w: World, k: nat, fate: Fate): World {
    if k < |w.chain| && w.chain[k].fate == InFlight then w.(chain := w.chain[k := w.chain[k].(fate := fate)]) else w
  }

  /** An event that is not possible now changes nothing. */
  ghost function Next(w: World, e: Event): World {
    match e
    case Elsewhere(op) => if MayRun(w, op) then w.(db := Apply(w.db, op)) else w
    case Prepare(p, now, gate, wallet) => AfterPrepare(w, p, now, gate, wallet)
    case Send(p, outcome, reached) => AfterSend(w, p, outcome, reached)
    case RecordSend(p, reported, now) => AfterRecordSend(w, p, reported, now)
    case ObserveLanded(p, k) => AfterObserveLanded(w, p, k)
    case ObserveAbsent(p) => AfterObserveAbsent(w, p)
    case Settle(p, ev, required, now) => AfterSettle(w, p, ev, required, now)
    case Reset(p, now) => AfterReset(w, p, now)
    case Fail(p, now) => AfterFail(w, p, now)
    case Crash(p) => At(w, p, Idle)
    case Land(k) => AfterFate(w, k, Landed)
    case Drop(k) => AfterFate(w, k, Dropped)
  }

  function Start(safety: nat): World { World(EmptyDb(safety), [], map[]) }

  ghost function RunWorld(w: World, es: seq<Event>): World {
    if es == [] then w else Next(RunWorld(w, es[..|es| - 1]), es[|es| - 1])
  }

  // ---------------------------------------------------------------------------
  // The invariant
  // ---------------------------------------------------------------------------

  const SENDABLE := {SIGNED, BROADCASTED, CONFIRMING, UNKNOWN, SETTLED}

  /** A transfer that exists belongs to a payout still in, or past, the broadcast stages, and carries its snapshot. */
  ghost predicate Backed(ps: seq<Payout>, t: Transfer) {
    Live(t) ==>
      && t.payout < |ps| && ps[t.payout].status in SENDABLE
      && ps[t.payout].gram == Some(t.amount) && ps[t.payout].destination == t.to
  }

  ghost predicate ChainOk(ps: seq<Payout>, chain: seq<Transfer>) {
    && (forall i :: 0 <= i < |chain| ==> Backed(ps, chain[i]))
    && (forall i, j :: 0 <= i < j < |chain| && Live(chain[i]) && Live(chain[j]) ==> chain[i].payout != chain[j].payout)
  }

  ghost predicate Proven(p: Payout, id: nat, chain: seq<Transfer>) {
    p.status == SETTLED ==> p.gram.Some? && HasLanded(chain, id, p.destination, p.gram.value)
  }

  ghost predicate SettledProven(ps: seq<Payout>, chain: seq<Transfer>) {
    forall k :: 0 <= k < |ps| ==> Proven(ps[k], k, chain)
  }

  /** What the worker may rely on at its stage. */
  ghost predicate StageOk(ps: seq<Payout>, chain: seq<Transfer>, p: nat, s: Stage) {
    match s
    case Idle => true
    case Sending(amount, destination) =>
      p < |ps| && ps[p].status == SIGNED && ps[p].gram == Some(amount) && ps[p].destination == destination
    case Sent(outcome) => p < |ps| && ps[p].status == SIGNED && (outcome == REJECTED ==> !HasLive(chain, p))
    case SawLanded(paid, recipient) => HasLanded(chain, p, recipient, paid)
    case SawNothing => !HasLive(chain, p)
    case Cleared => !HasLive(chain, p)
  }

  ghost predicate StagesOk(w: World) {
    forall p :: p in w.stages ==> StageOk(w.db.payouts, w.chain, p, w.stages[p])
  }

  ghost predicate Safe(w: World) {
    ChainOk(w.db.payouts, w.chain) && SettledProven(w.db.payouts, w.chain) && StagesOk(w)
  }

  // ---------------------------------------------------------------------------
  // Database steps with the chain standing still
  // ---------------------------------------------------------------------------

  /** How one payout row may change without disturbing transfers, proofs of settlement or its worker's stage. */
  ghost predicate Harmless(p: Payout, q: Payout, live: bool, s: Stage) {
    && q.destination == p.destination
    && (q.status == SETTLED <==> p.status == SETTLED)
    && (p.status in SENDABLE ==> q.gram == p.gram)
    && (live ==> q.status in SENDABLE)
    && (s.Sending? || s.Sent? ==> q.status == SIGNED && q.gram == p.gram)
  }

  ghost predicate HarmlessRows(before: seq<Payout>, after: seq<Payout>, chain: seq<Transfer>, stages: map<nat, Stage>) {
    && |before| <= |after|
    && (forall k :: 0 <= k < |before| ==>
          Harmless(before[k], after[k], HasLive(chain, k), if k in stages then stages[k] else Idle))
    && (forall k :: |before| <= k < |after| ==> after[k].status != SETTLED)
  }

  lemma HarmlessKeeps(w: World, next: World)
    requires Safe(w) && next.chain == w.chain
    requires forall p :: p in next.stages ==> next.stages[p].Idle? || (p in w.stages && next.stages[p] == w.stages[p])
    requires HarmlessRows(w.db.payouts, next.db.payouts, w.chain, next.stages)
    ensures Safe(next)
  {
    var before, after := w.db.payouts, next.db.payouts;
    forall i | 0 <= i < |w.chain| ensures Backed(after, w.chain[i]) {
      assert Backed(before, w.chain[i]);
    }
    forall k | 0 <= k < |after| ensures Proven(after[k], k, w.chain) {
      assert k < |before| ==> Proven(before[k], k, w.chain);
    }
    forall p | p in next.stages ensures StageOk(after, w.chain, p, next.stages[p]) {
      assert p in w.stages ==> StageOk(before, w.chain, p, w.stages[p]);
    }
  }

  /** What an operation outside the flows can do to payout row `k`. */
  ghost predicate RowStep(w: World, k: nat, p: Payout, q: Payout) {
    || q == p
    || (q.destination == p.destination && q.status !in SENDABLE && p.status !in SENDABLE)
    || (StageOf(w, k).Idle? && q.destination == p.destination && q.gram == p.gram
        && p.status == RESERVED && q.status == SIGNED)
    || (StageOf(w, k).Idle? && q.destination == p.destination && q.gram == p.gram
        && p.status == BROADCASTED && q.status == CONFIRMING)
  }

  ghost predicate RowsStep(w: World, qs: seq<Payout>) {
    var ps := w.db.payouts;
    && |ps| <= |qs|
    && (forall k :: 0 <= k < |ps| ==> RowStep(w, k, ps[k], qs[k]))
    && (forall k :: |ps| <= k < |qs| ==> qs[k].status == QUEUED)
  }

  lemma FinalizeLeavesPayouts(db: Db, inv: nat, ev: Evidence, hold: int, bps: nat)
    ensures FinalizePayment(db, inv, ev, hold, bps).db.payouts == db.payouts
  {
  }

  lemma ReleaseLeavesPayouts(db: Db, id: nat, now: int, active: bool)
    ensures ReleasePayment(db, id, now, active).db.payouts == db.payouts
  {
  }

  lemma FundLeavesPayouts(db: Db, amount: int, txHash: string)
    ensures FundTreasury(db, amount, txHash).db.payouts == db.payouts
  {
  }

  lemma QueueAddsPayout(db: Db, q: QueueRequest)
    ensures var qs := QueuePayout(db, q).db.payouts;
            qs == db.payouts || (|qs| == |db.payouts| + 1 && qs[..|db.payouts|] == db.payouts && qs[|db.payouts|].status == QUEUED)
  {
  }

  lemma QueueRows(w: World, q: QueueRequest)
    ensures RowsStep(w, QueuePayout(w.db, q).db.payouts)
  {
    QueueAddsPayout(w.db, q);
    var qs := QueuePayout(w.db, q).db.payouts;
    assert forall k :: 0 <= k < |w.db.payouts| ==> qs[k] == qs[..|w.db.payouts|][k] || qs == w.db.payouts;
  }

  lemma LockRows(w: World, id: nat, quote: string, source: string, expired: bool, now: int)
    ensures RowsStep(w, LockRate(w.db, id, quote, source, expired, now).db.payouts)
  {
  }

  lemma ReserveRows(w: World, id: nat, now: int, ttl: int)
    ensures RowsStep(w, ReserveLiquidity(w.db, id, now, ttl).db.payouts)
  {
  }

  lemma SignatureRows(w: World, id: nat, reference: string, now: int)
    requires StageOf(w, id).Idle?
    ensures RowsStep(w, RecordSignature(w.db, id, reference, now).db.payouts)
  {
  }

  lemma ConfirmingRows(w: World, id: nat, txHash: string, now: int)
    requires StageOf(w, id).Idle?
    ensures RowsStep(w, MarkConfirming(w.db, id, txHash, now).db.payouts)
  {
  }

  lemma ExpireRows(w: World, now: int)
    ensures RowsStep(w, ExpireReservations(w.db, now).db.payouts)
  {
  }

  lemma ElsewhereRows(w: World, op: Operation)
    requires MayRun(w, op)
    ensures RowsStep(w, Apply(w.db, op).payouts)
  {
    match op
    case OpFinalizePayment(inv, ev, hold, bps) => FinalizeLeavesPayouts(w.db, inv, ev, hold, bps);
    case OpReleasePayment(id, now, active) => ReleaseLeavesPayouts(w.db, id, now, active);
    case OpFundTreasury(amount, txHash) => FundLeavesPayouts(w.db, amount, txHash);
    case OpQueuePayout(q) => QueueRows(w, q);
    case OpLockRate(id, quote, source, expired, now) => LockRows(w, id, quote, source, expired, now);
    case OpReserveLiquidity(id, now, ttl) => ReserveRows(w, id, now, ttl);
    case OpRecordSignature(id, reference, now) => SignatureRows(w, id, reference, now);
    case OpMarkConfirming(id, txHash, now) => ConfirmingRows(w, id, txHash, now);
    case OpExpireReservations(now) => ExpireRows(w, now);
    case _ =>
  }

  lemma ElsewhereKeeps(w: World, op: Operation)
    requires Safe(w) && MayRun(w, op)
    ensures Safe(w.(db := Apply(w.db, op)))
  {
    var next := w.(db := Apply(w.db, op));
    ElsewhereRows(w, op);
    var ps, qs := w.db.payouts, next.db.payouts;
    forall k | 0 <= k < |ps| ensures Harmless(ps[k], qs[k], HasLive(w.chain, k), if k in w.stages then w.stages[k] else Idle) {
      assert RowStep(w, k, ps[k], qs[k]);
      LiveIsSendable(w, k);
      assert k in w.stages ==> StageOk(ps, w.chain, k, w.stages[k]);
    }
    HarmlessKeeps(w, next);
  }

  lemma LiveIsSendable(w: World, p: nat)
    requires ChainOk(w.db.payouts, w.chain)
    ensures HasLive(w.chain, p) ==> p < |w.db.payouts| && w.db.payouts[p].status in SENDABLE
  {
    if i :| 0 <= i < |w.chain| && w.chain[i].payout == p && Live(w.chain[i]) {
      assert Backed(w.db.payouts, w.chain[i]);
    }
  }

  // ---------------------------------------------------------------------------
  // The broadcast flow
  // ---------------------------------------------------------------------------

  /** One payout row changes and the stages only return to idle. */
  lemma RowKeepsSafe(w: World, next: World, id: nat)
    requires Safe(w) && next.chain == w.chain && id < |w.db.payouts| && |next.db.payouts| == |w.db.payouts|
    requires next.db.payouts == w.db.payouts[id := next.db.payouts[id]]
    requires forall p :: p in next.stages ==> next.stages[p].Idle? || (p in w.stages && next.stages[p] == w.stages[p])
    requires Harmless(w.db.payouts[id], next.db.payouts[id], HasLive(w.chain, id), if id in next.stages then next.stages[id] else Idle)
    ensures Safe(next)
  {
    var ps, qs := w.db.payouts, next.db.payouts;
    forall k | 0 <= k < |ps| ensures Harmless(ps[k], qs[k], HasLive(w.chain, k), if k in next.stages then next.stages[k] else Idle) {
      if k != id {
        LiveIsSendable(w, k);
        assert k in w.stages ==> StageOk(ps, w.chain, k, w.stages[k]);
      }
    }
    HarmlessKeeps(w, next);
  }

  lemma StageKeepsSafe(w: World, p: nat, s: Stage)
    requires Safe(w) && StageOk(w.db.payouts, w.chain, p, s)
    ensures Safe(At(w, p, s))
  {
  }

  lemma PrepareKeeps(w: World, p: nat, now: int, gateOpen: bool, wallet: Option<Wallet>)
    requires Safe(w)
    ensures Safe(AfterPrepare(w, p, now, gateOpen, wallet))
  {
    if StageOf(w, p).Idle? {
      var step := PrepareBroadcast(w.db, p, now, gateOpen, wallet);
      var next := w.(db := step.db);
      if step.db != w.db {
        LiveIsSendable(w, p);
        RowKeepsSafe(w, next, p);
      }
      if step.result.Ok? && step.result.value.Send? {
        StageKeepsSafe(next, p, Sending(step.result.value.amount, step.result.value.destination));
      }
    }
  }

  lemma GrowKeeps(w: World, t: Transfer)
    requires Safe(w) && Backed(w.db.payouts, t) && !HasLive(w.chain, t.payout)
    requires t.payout in w.stages && w.stages[t.payout].Sending?
    ensures ChainOk(w.db.payouts, w.chain + [t]) && SettledProven(w.db.payouts, w.chain + [t])
    ensures forall p :: p in w.stages && p != t.payout ==> StageOk(w.db.payouts, w.chain + [t], p, w.stages[p])
  {
    var next := w.chain + [t];
    forall k | 0 <= k < |w.db.payouts| ensures Proven(w.db.payouts[k], k, next) {
      assert Proven(w.db.payouts[k], k, w.chain);
      LandedStays(w.chain, next, k);
    }
    forall p | p in w.stages && p != t.payout ensures StageOk(w.db.payouts, next, p, w.stages[p]) {
      assert StageOk(w.db.payouts, w.chain, p, w.stages[p]);
      LandedStays(w.chain, next, p);
      if HasLive(next, p) {
        var i :| 0 <= i < |next| && next[i].payout == p && Live(next[i]);
        assert w.chain[i] == next[i];
      }
    }
  }

  lemma LandedStays(before: seq<Transfer>, after: seq<Transfer>, p: nat)
    requires |before| <= |after|
    requires forall i :: 0 <= i < |before| && before[i].fate == Landed ==> after[i] == before[i]
    ensures forall to, amount :: HasLanded(before, p, to, amount) ==> HasLanded(after, p, to, amount)
  {
    forall to, amount | HasLanded(before, p, to, amount) ensures HasLanded(after, p, to, amount) {
      var i :| 0 <= i < |before| && before[i] == Transfer(p, to, amount, Landed);
      assert after[i] == before[i];
    }
  }

  lemma SendKeeps(w: World, p: nat, outcome: SendOutcome, reached: bool)
    requires Safe(w)
    ensures Safe(AfterSend(w, p, outcome, reached))
  {
    var s := StageOf(w, p);
    var next := AfterSend(w, p, outcome, reached);
    if next != w {
      assert StageOk(w.db.payouts, w.chain, p, s);
      if next.chain == w.chain {
        StageKeepsSafe(w, p, Sent(outcome));
      } else {
        GrowKeeps(w, Transfer(p, s.destination, s.amount, InFlight));
      }
    }
  }

  lemma FailRow(db: Db, p: nat, now: int)
    requires p < |db.payouts|
    ensures var qs := FailPayout(db, p, now).db.payouts;
            || qs == db.payouts
            || (db.payouts[p].status != SETTLED && qs == db.payouts[p := db.payouts[p].(status := FAILED, updatedAt := now)])
  {
  }

  lemma FailKeepsSafe(w: World, p: nat, now: int)
    requires Safe(w) && !HasLive(w.chain, p)
    ensures Safe(At(w, p, Idle).(db := FailPayout(w.db, p, now).db))
  {
    var next := At(w, p, Idle).(db := FailPayout(w.db, p, now).db);
    if p < |w.db.payouts| && next.db.payouts != w.db.payouts {
      FailRow(w.db, p, now);
      RowKeepsSafe(w, next, p);
    } else {
      StageKeepsSafe(w, p, Idle);
    }
  }

  lemma RecordSendKeeps(w: World, p: nat, reported: Option<string>, now: int)
    requires Safe(w)
    ensures Safe(AfterRecordSend(w, p, reported, now))
  {
    var s := StageOf(w, p);
    if s.Sent? {
      assert StageOk(w.db.payouts, w.chain, p, s);
      if s.outcome == REJECTED {
        FailKeepsSafe(w, p, now);
      } else {
        RowKeepsSafe(w, AfterRecordSend(w, p, reported, now), p);
      }
    }
  }

  // ---------------------------------------------------------------------------
  // The reconcile flow and the chain's own moves
  // ---------------------------------------------------------------------------

  lemma ObserveLandedKeeps(w: World, p: nat, k: nat)
    requires Safe(w)
    ensures Safe(AfterObserveLanded(w, p, k))
  {
    if AfterObserveLanded(w, p, k) != w {
      assert w.chain[k] == Transfer(p, w.chain[k].to, w.chain[k].amount, Landed);
      StageKeepsSafe(w, p, SawLanded(w.chain[k].amount, w.chain[k].to));
    }
  }

  lemma ObserveAbsentKeeps(w: World, p: nat)
    requires Safe(w)
    ensures Safe(AfterObserveAbsent(w, p))
  {
    if AfterObserveAbsent(w, p) != w {
      StageKeepsSafe(w, p, SawNothing);
    }
  }

  lemma SettleRow(db: Db, p: nat, ev: ChainEvidence, required: int, now: int)
    requires p < |db.payouts|
    ensures var row := db.payouts[p];
            var qs := SettlePayout(db, p, ev, required, now).db.payouts;
            || qs == db.payouts
            || (row.status in SENDABLE && EvidenceError(row, ev, required).None?
                && qs == db.payouts[p := row.(status := SETTLED, txHash := Some(ev.txHash), updatedAt := now)])
  {
  }

  lemma SettleKeepsSafe(w: World, p: nat, ev: ChainEvidence, required: int, now: int)
    requires Safe(w)
    ensures Safe(AfterSettle(w, p, ev, required, now))
  {
    var s := StageOf(w, p);
    if s.SawLanded? {
      var next := AfterSettle(w, p, ev, required, now);
      var seen := ev.(amount := s.paid, destination := s.recipient);
      assert StageOk(w.db.payouts, w.chain, p, s);
      var i :| 0 <= i < |w.chain| && w.chain[i] == Transfer(p, s.recipient, s.paid, Landed);
      assert Backed(w.db.payouts, w.chain[i]);
      SettleRow(w.db, p, seen, required, now);
      if next.db.payouts == w.db.payouts {
        StageKeepsSafe(w, p, Idle);
      } else {
        SettledRowSafe(w, next, p);
      }
    }
  }

  lemma SettledRowSafe(w: World, next: World, p: nat)
    requires Safe(w) && p < |w.db.payouts| && StageOf(w, p).SawLanded?
    requires w.db.payouts[p].status in SENDABLE && w.db.payouts[p].gram == Some(StageOf(w, p).paid)
    requires w.db.payouts[p].destination == StageOf(w, p).recipient
    requires |next.db.payouts| == |w.db.payouts|
    requires var q := next.db.payouts[p];
             next.db.payouts == w.db.payouts[p := w.db.payouts[p].(status := SETTLED, txHash := q.txHash, updatedAt := q.updatedAt)]
    requires next.chain == w.chain && next.stages == w.stages[p := Idle]
    ensures Safe(next)
  {
    var ps, qs := w.db.payouts, next.db.payouts;
    assert StageOk(ps, w.chain, p, w.stages[p]);
    forall i | 0 <= i < |w.chain| ensures Backed(qs, w.chain[i]) {
      assert Backed(ps, w.chain[i]);
    }
    forall k | 0 <= k < |qs| ensures Proven(qs[k], k, w.chain) {
      assert Proven(ps[k], k, w.chain);
    }
    forall k | k in next.stages ensures StageOk(qs, w.chain, k, next.stages[k]) {
      assert k in w.stages ==> StageOk(ps, w.chain, k, w.stages[k]);
    }
  }

  lemma ResetKeepsSafe(w: World, p: nat, now: int)
    requires Safe(w)
    ensures Safe(AfterReset(w, p, now))
  {
    if StageOf(w, p).SawNothing? {
      assert StageOk(w.db.payouts, w.chain, p, w.stages[p]);
      var idle := At(w, p, Idle).(db := ResetNotFound(w.db, p, now).db);
      if p < |w.db.payouts| && w.db.payouts[p].status == UNKNOWN {
        RowKeepsSafe(w, idle, p);
      } else {
        StageKeepsSafe(w, p, Idle);
      }
      StageKeepsSafe(idle, p, Cleared);
      assert At(idle, p, Cleared) == AfterReset(w, p, now);
    }
  }

  lemma FateKeeps(w: World, k: nat, fate: Fate)
    requires Safe(w) && fate != InFlight
    ensures Safe(AfterFate(w, k, fate))
  {
    var next := AfterFate(w, k, fate);
    if next != w {
      forall p: nat ensures HasLive(next.chain, p) ==> HasLive(w.chain, p) {
        if i :| 0 <= i < |next.chain| && next.chain[i].payout == p && Live(next.chain[i]) {
          assert w.chain[i].payout == p && Live(w.chain[i]);
        }
      }
      forall i | 0 <= i < |next.chain| ensures Backed(w.db.payouts, next.chain[i]) {
        assert Backed(w.db.payouts, w.chain[i]);
      }
      forall p | 0 <= p < |w.db.payouts| ensures Proven(w.db.payouts[p], p, next.chain) {
        assert Proven(w.db.payouts[p], p, w.chain);
        LandedStays(w.chain, next.chain, p);
      }
      forall p | p in w.stages ensures StageOk(w.db.payouts, next.chain, p, w.stages[p]) {
        assert StageOk(w.db.payouts, w.chain, p, w.stages[p]);
        LandedStays(w.chain, next.chain, p);
      }
    }
  }

  lemma NextKeeps(w: World, e: Event)
    requires Safe(w)
    ensures Safe(Next(w, e))
  {
    match e
    case Elsewhere(op) => if MayRun(w, op) { ElsewhereKeeps(w, op); }
    case Prepare(p, now, gate, wallet) => PrepareKeeps(w, p, now, gate, wallet);
    case Send(p, outcome, reached) => SendKeeps(w, p, outcome, reached);
    case RecordSend(p, reported, now) => RecordSendKeeps(w, p, reported, now);
    case ObserveLanded(p, k) => ObserveLandedKeeps(w, p, k);
    case ObserveAbsent(p) => ObserveAbsentKeeps(w, p);
    case Settle(p, ev, required, now) => SettleKeepsSafe(w, p, ev, required, now);
    case Reset(p, now) => ResetKeepsSafe(w, p, now);
    case Fail(p, now) =>
      if StageOf(w, p).Cleared? {
        assert StageOk(w.db.payouts, w.chain, p, w.stages[p]);
        FailKeepsSafe(w, p, now);
      }
    case Crash(p) => StageKeepsSafe(w, p, Idle);
    case Land(k) => FateKeeps(w, k, Landed);
    case Drop(k) => FateKeeps(w, k, Dropped);
  }

  lemma {:induction false} RunWorldSafe(safety: nat, es: seq<Event>)
    ensures Safe(RunWorld(Start(safety), es))
  {
    if es != [] {
      RunWorldSafe(safety, es[..|es| - 1]);
      NextKeeps(RunWorld(Start(safety), es[..|es| - 1]), es[|es| - 1]);
    }
  }

  // ---------------------------------------------------------------------------
  // Theorems
  // ---------------------------------------------------------------------------

  predicate OnlyTransfer(chain: seq<Transfer>, i: nat, payout: nat)
    requires i < |chain|
  {
    forall j :: 0 <= j < |chain| && j != i && chain[j].payout == payout ==> !Live(chain[j])
  }

  /**
   In every run, crashes anywhere: a payout has at most one transfer on or on its way to the chain, a SETTLED one has
   exactly one and it landed with the locked amount at the locked address, and a FAILED one has none.
   */
  lemma EveryRunPaysOnce(safety: nat, es: seq<Event>)
    ensures var w := RunWorld(Start(safety), es);
            forall i, j :: 0 <= i < j < |w.chain| && Live(w.chain[i]) && Live(w.chain[j]) ==>
              w.chain[i].payout != w.chain[j].payout
    ensures var w := RunWorld(Start(safety), es);
            forall p :: 0 <= p < |w.db.payouts| && w.db.payouts[p].status == SETTLED ==>
              w.db.payouts[p].gram.Some?
              && exists i :: 0 <= i < |w.chain| && OnlyTransfer(w.chain, i, p)
                             && w.chain[i] == Transfer(p, w.db.payouts[p].destination, w.db.payouts[p].gram.value, Landed)
    ensures var w := RunWorld(Start(safety), es);
            forall p :: 0 <= p < |w.db.payouts| && w.db.payouts[p].status == FAILED ==> !HasLive(w.chain, p)
  {
    var w := RunWorld(Start(safety), es);
    RunWorldSafe(safety, es);
    forall p | 0 <= p < |w.db.payouts| && w.db.payouts[p].status == SETTLED
      ensures w.db.payouts[p].gram.Some?
              && exists i :: 0 <= i < |w.chain| && OnlyTransfer(w.chain, i, p)
                             && w.chain[i] == Transfer(p, w.db.payouts[p].destination, w.db.payouts[p].gram.value, Landed)
    {
      assert Proven(w.db.payouts[p], p, w.chain);
      var i :| 0 <= i < |w.chain| && w.chain[i] == Transfer(p, w.db.payouts[p].destination, w.db.payouts[p].gram.value, Landed);
      assert OnlyTransfer(w.chain, i, p);
    }
    forall p | 0 <= p < |w.db.payouts| && w.db.payouts[p].status == FAILED ensures !HasLive(w.chain, p) {
      LiveIsSendable(w, p);
    }
  }
}
