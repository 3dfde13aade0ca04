/** What a payout worker does at each of its steps, said of the payout's row, the chain and where the worker then stands. */
module WorkerAnswers {
  import opened Basics
  import opened Ledger
  import opened Pipeline
  import opened PipelineInvariants
  import opened PipelineTheorems
  import opened PayoutAnswers
  import opened Protocol
  import ChainBooks

  /** Where the worker stands after the step, and that the other workers stand where they stood. */
  ghost predicate Stands(w: World, next: World, p: nat, s: Stage) {
    forall q: nat :: StageOf(next, q) == if q == p then s else StageOf(w, q)
  }

  /** An idle worker starts a send exactly when the payout may go out, and then holds its amount and address. */
  lemma PrepareDecides(safety: nat, es: seq<Event>, p: nat, now: int, gateOpen: bool, wallet: Option<Wallet>)
    requires StageOf(RunWorld(Start(safety), es), p).Idle?
    ensures var w := RunWorld(Start(safety), es);
            var next := Next(w, Prepare(p, now, gateOpen, wallet));
            next.chain == w.chain
            && if p < |w.db.payouts| && w.db.payouts[p].status == SIGNED && gateOpen && Promised(w.db, p, now)
                  && wallet.Some? && wallet.value.address == w.db.payouts[p].destination
                  && wallet.value.network == w.db.payouts[p].network
               then w.db.payouts[p].gram.Some?
                    && Stands(w, next, p, Sending(w.db.payouts[p].gram.value, w.db.payouts[p].destination))
               else Stands(w, next, p, Idle) && next.db == w.db
  {
    var w := RunWorld(Start(safety), es);
    ChainBooks.WorldDbReachable(safety, es);
    PrepareAnswers(w.db, p, now, gateOpen, wallet);
  }

  /** What the chain is handed: one transfer of what the worker holds, when it has none under way and takes the message. */
  lemma SendHandsOver(w: World, p: nat, outcome: SendOutcome, reached: bool)
    requires StageOf(w, p).Sending?
    ensures var s := StageOf(w, p);
            var next := Next(w, Event.Send(p, outcome, reached));
            var underWay := exists i :: 0 <= i < |w.chain| && w.chain[i].payout == p && w.chain[i].fate in {InFlight, Landed};
            && next.db == w.db
            && (underWay && outcome == REJECTED ==> next == w)
            && (!(underWay && outcome == REJECTED) ==> Stands(w, next, p, Sent(outcome)))
            && next.chain == (if !underWay && (outcome == ACCEPTED || (outcome == INDETERMINATE && reached))
                              then w.chain + [Transfer(p, s.destination, s.amount, InFlight)] else w.chain)
  {
    assert HasLive(w.chain, p) <==> exists i :: 0 <= i < |w.chain| && w.chain[i].payout == p && w.chain[i].fate in {InFlight, Landed};
  }

  /** The payout failed: its row, its reservations, and amount and fee back with the merchant. */
  ghost predicate FailedBack(db: Db, next: Db, p: nat, now: int) {
    && p < |db.payouts| && next.payouts == db.payouts[p := db.payouts[p].(status := FAILED, updatedAt := now)]
    && Closed(db.reservations, next.reservations, p, RELEASED)
    && Moved(db, next, Merchant(db.payouts[p].merchant), AVAILABLE) == db.payouts[p].amount + db.payouts[p].fee
  }

  /** What is recorded of a send, by its outcome. */
  ghost predicate RecordedAs(db: Db, next: Db, p: nat, outcome: SendOutcome, reported: Option<string>, now: int)
    requires p < |db.payouts|
  {
    var row := db.payouts[p];
    match outcome
    case ACCEPTED =>
      next == (if reported.Some? && Carried(db, p, reported.value) then db
               else db.(payouts := db.payouts[p := row.(status := BROADCASTED, txHash := reported, updatedAt := now)]))
    case INDETERMINATE => next == db.(payouts := db.payouts[p := row.(status := UNKNOWN, updatedAt := now)])
    case REJECTED => FailedBack(db, next, p, now)
  }

  /** An accepted send is recorded under its hash, an indeterminate one becomes UNKNOWN, a rejected one gives the money back. */
  lemma OutcomeIsRecorded(safety: nat, es: seq<Event>, p: nat, reported: Option<string>, now: int)
    requires StageOf(RunWorld(Start(safety), es), p).Sent?
    ensures var w := RunWorld(Start(safety), es);
            var next := Next(w, RecordSend(p, reported, now));
            && p < |w.db.payouts| && Stands(w, next, p, Idle) && next.chain == w.chain
            && RecordedAs(w.db, next.db, p, StageOf(w, p).outcome, reported, now)
  {
    var w := RunWorld(Start(safety), es);
    RunWorldSafe(safety, es);
    assert p in w.stages && StageOk(w.db.payouts, w.chain, p, w.stages[p]);
    ChainBooks.WorldDbReachable(safety, es);
    RecordStep(w, p, reported, now);
    match StageOf(w, p).outcome
    case ACCEPTED => AcceptedIsRecorded(w.db, p, reported, now);
    case INDETERMINATE => TimeoutIsRecorded(w.db, p, reported, now);
    case REJECTED => RejectionIsRecorded(w.db, p, reported, now);
  }

  lemma RecordStep(w: World, p: nat, reported: Option<string>, now: int)
    requires StageOf(w, p).Sent?
    ensures var next := Next(w, RecordSend(p, reported, now));
            && Stands(w, next, p, Idle) && next.chain == w.chain
            && next.db == match StageOf(w, p).outcome
                          case ACCEPTED => RecordBroadcast(w.db, p, reported, now).db
                          case INDETERMINATE => MarkUnknown(w.db, p, now).db
                          case REJECTED => FailPayout(w.db, p, now).db
  {
  }

  lemma AcceptedIsRecorded(db: Db, p: nat, reported: Option<string>, now: int)
    requires Reachable(db) && p < |db.payouts| && db.payouts[p].status == SIGNED
    ensures RecordedAs(db, RecordBroadcast(db, p, reported, now).db, p, ACCEPTED, reported, now)
  {
    BroadcastAnswers(db, p, reported, now);
  }

  lemma TimeoutIsRecorded(db: Db, p: nat, reported: Option<string>, now: int)
    requires Reachable(db) && p < |db.payouts| && db.payouts[p].status == SIGNED
    ensures RecordedAs(db, MarkUnknown(db, p, now).db, p, INDETERMINATE, reported, now)
  {
    UnknownAnswers(db, p, now);
  }

  lemma RejectionIsRecorded(db: Db, p: nat, reported: Option<string>, now: int)
    requires Reachable(db) && p < |db.payouts| && db.payouts[p].status == SIGNED
    ensures RecordedAs(db, FailPayout(db, p, now).db, p, REJECTED, reported, now)
  {
    FailsBack(db, p, now);
  }

  /** A payout settles only on what the worker saw landed: the locked amount, at the payout's address. */
  lemma SettlesOnWhatLanded(safety: nat, es: seq<Event>, p: nat, ev: ChainEvidence, required: int, now: int)
    requires StageOf(RunWorld(Start(safety), es), p).SawLanded?
    ensures var w := RunWorld(Start(safety), es);
            var s := StageOf(w, p);
            var next := Next(w, Settle(p, ev, required, now));
            && Stands(w, next, p, Idle) && next.chain == w.chain
            && (next.db != w.db ==>
                  && p < |w.db.payouts| && w.db.payouts[p].gram == Some(s.paid) && w.db.payouts[p].destination == s.recipient
                  && HasLanded(w.chain, p, s.recipient, s.paid)
                  && SettledAs(w.db, next.db, p, ev.(amount := s.paid, destination := s.recipient),
                               if ev.networkFee.Some? then ev.networkFee.value else 0, now))
  {
    var w := RunWorld(Start(safety), es);
    RunWorldSafe(safety, es);
    assert p in w.stages && StageOk(w.db.payouts, w.chain, p, w.stages[p]);
    ChainBooks.WorldDbReachable(safety, es);
    SettlesAt(w, p, ev, required, now);
  }

  lemma SettlesAt(w: World, p: nat, ev: ChainEvidence, required: int, now: int)
    requires Reachable(w.db) && StageOf(w, p).SawLanded?
    ensures var s := StageOf(w, p);
            var next := Next(w, Settle(p, ev, required, now));
            && Stands(w, next, p, Idle) && next.chain == w.chain
            && (next.db != w.db ==>
                  && p < |w.db.payouts| && w.db.payouts[p].gram == Some(s.paid) && w.db.payouts[p].destination == s.recipient
                  && SettledAs(w.db, next.db, p, ev.(amount := s.paid, destination := s.recipient),
                               if ev.networkFee.Some? then ev.networkFee.value else 0, now))
  {
    var seen := ev.(amount := StageOf(w, p).paid, destination := StageOf(w, p).recipient);
    assert Next(w, Settle(p, ev, required, now)).db == SettlePayout(w.db, p, seen, required, now).db;
    if SettlePayout(w.db, p, seen, required, now).db != w.db {
      SettledIsSeen(w.db, p, seen, required, now);
    }
  }

  lemma SettledIsSeen(db: Db, p: nat, seen: ChainEvidence, required: int, now: int)
    requires Reachable(db) && SettlePayout(db, p, seen, required, now).db != db
    ensures p < |db.payouts| && db.payouts[p].gram == Some(seen.amount) && db.payouts[p].destination == seen.destination
    ensures SettledAs(db, SettlePayout(db, p, seen, required, now).db, p, seen,
                      if seen.networkFee.Some? then seen.networkFee.value else 0, now)
  {
    RefusedKeeps(db, p, seen, required, now);
    SettlementStores(db, p, seen, required, now);
    SettlesExactlyWhenCovered(db, p, seen, required, now);
  }

  /** Nothing on the chain: an UNKNOWN payout goes back to RESERVED. */
  lemma AbsenceClears(w: World, p: nat, now: int)
    requires StageOf(w, p).SawNothing?
    ensures var next := Next(w, Reset(p, now));
            && Stands(w, next, p, Cleared) && next.chain == w.chain
            && next.db == if p < |w.db.payouts| && w.db.payouts[p].status == UNKNOWN
                          then w.db.(payouts := w.db.payouts[p := w.db.payouts[p].(status := RESERVED, updatedAt := now)]) else w.db
  {
    ResetAnswers(w.db, p, now);
  }

  /** Then any payout that is not final fails, and its money goes back. */
  lemma ClearedFails(safety: nat, es: seq<Event>, p: nat, now: int)
    requires var w := RunWorld(Start(safety), es);
             StageOf(w, p).Cleared? && p < |w.db.payouts| && w.db.payouts[p].status !in {FAILED, SETTLED, UNKNOWN}
    ensures var w := RunWorld(Start(safety), es);
            var next := Next(w, Event.Fail(p, now));
            Stands(w, next, p, Idle) && next.chain == w.chain && FailedBack(w.db, next.db, p, now)
  {
    var w := RunWorld(Start(safety), es);
    ChainBooks.WorldDbReachable(safety, es);
    FailStep(w, p, now);
    FailsBack(w.db, p, now);
  }

  lemma FailStep(w: World, p: nat, now: int)
    requires StageOf(w, p).Cleared?
    ensures var next := Next(w, Event.Fail(p, now));
            Stands(w, next, p, Idle) && next.chain == w.chain && next.db == FailPayout(w.db, p, now).db
  {
  }

  lemma FailsBack(db: Db, p: nat, now: int)
    requires Reachable(db) && p < |db.payouts| && db.payouts[p].status !in {FAILED, SETTLED, UNKNOWN}
    ensures FailedBack(db, FailPayout(db, p, now).db, p, now)
  {
    FailureStores(db, p, now);
  }

  /** A worker looks only while idle, at a payout on its way: it sees a transfer that landed, or that there is none. */
  lemma ObservesChain(w: World, p: nat, k: nat)
    ensures var looking := StageOf(w, p).Idle? && p < |w.db.payouts| && w.db.payouts[p].status in {UNKNOWN, BROADCASTED, CONFIRMING};
            && (if looking && k < |w.chain| && w.chain[k].payout == p && w.chain[k].fate == Landed
                then Stands(w, Next(w, ObserveLanded(p, k)), p, SawLanded(w.chain[k].amount, w.chain[k].to))
                     && Next(w, ObserveLanded(p, k)).db == w.db
                else Next(w, ObserveLanded(p, k)) == w)
            && (if looking && (forall i :: 0 <= i < |w.chain| && w.chain[i].payout == p ==> w.chain[i].fate == Dropped)
                then Stands(w, Next(w, ObserveAbsent(p)), p, SawNothing) && Next(w, ObserveAbsent(p)).db == w.db
                else Next(w, ObserveAbsent(p)) == w)
  {
    assert HasLive(w.chain, p) <==> exists i :: 0 <= i < |w.chain| && w.chain[i].payout == p && w.chain[i].fate != Dropped;
  }
}
