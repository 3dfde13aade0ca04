/** The books and the chain agree: what the treasury says it paid out is what landed for settled payouts. */
module ChainBooks {
  import opened Basics
  import opened Sums
  import opened Ledger
  import opened Pipeline
  import opened PipelineInvariants
  import opened PipelineTheorems
  import opened Protocol

  // ---------------------------------------------------------------------------
  // Every event is one transaction or none
  // ---------------------------------------------------------------------------

  /** The transaction an event runs, if it runs one. */
  function TransactionOf(w: World, e: Event): Option<Operation> {
    match e
    case Elsewhere(op) => if MayRun(w, op) then Some(op) else None
    case Prepare(p, now, gate, wallet) => if StageOf(w, p).Idle? then Some(OpPrepareBroadcast(p, now, gate, wallet)) else None
    case RecordSend(p, reported, now) =>
      if StageOf(w, p).Sent? then
        Some(match StageOf(w, p).outcome
             case ACCEPTED => OpRecordBroadcast(p, reported, now)
             case INDETERMINATE => OpMarkUnknown(p, now)
             case REJECTED => OpFailPayout(p, now))
      else None
    case Settle(p, ev, required, now) =>
      if StageOf(w, p).SawLanded? then
        Some(OpSettlePayout(p, ev.(amount := StageOf(w, p).paid, destination := StageOf(w, p).recipient), required, now))
      else None
    case Reset(p, now) => if StageOf(w, p).SawNothing? then Some(OpResetNotFound(p, now)) else None
    case Fail(p, now) => if StageOf(w, p).Cleared? then Some(OpFailPayout(p, now)) else None
    case _ => None
  }

  /** The event leaves what its transaction leaves. */
  ghost predicate IsTransaction(w: World, e: Event) {
    Next(w, e).db == match TransactionOf(w, e) case Some(op) => Apply(w.db, op) case None => w.db
  }

  lemma PrepareTransaction(w: World, p: nat, now: int, gate: bool, wallet: Option<Wallet>)
    ensures IsTransaction(w, Prepare(p, now, gate, wallet))
  {
  }

  lemma RecordSendTransaction(w: World, p: nat, reported: Option<string>, now: int)
    ensures IsTransaction(w, RecordSend(p, reported, now))
  {
  }

  lemma SettleTransaction(w: World, p: nat, ev: ChainEvidence, required: int, now: int)
    ensures IsTransaction(w, Settle(p, ev, required, now))
  {
  }

  lemma ResetTransaction(w: World, p: nat, now: int)
    ensures IsTransaction(w, Reset(p, now))
  {
  }

  lemma FailTransaction(w: World, p: nat, now: int)
    ensures IsTransaction(w, Fail(p, now))
  {
  }

  lemma QuietTransaction(w: World, e: Event)
    requires !e.Prepare? && !e.RecordSend? && !e.Settle? && !e.Reset? && !e.Fail?
    ensures IsTransaction(w, e)
  {
  }

  lemma EventIsTransaction(w: World, e: Event)
    ensures IsTransaction(w, e)
  {
    match e
    case Prepare(p, now, gate, wallet) => PrepareTransaction(w, p, now, gate, wallet);
    case RecordSend(p, reported, now) => RecordSendTransaction(w, p, reported, now);
    case Settle(p, ev, required, now) => SettleTransaction(w, p, ev, required, now);
    case Reset(p, now) => ResetTransaction(w, p, now);
    case Fail(p, now) => FailTransaction(w, p, now);
    case _ => QuietTransaction(w, e);
  }

  /** So whatever holds after every run of transactions holds in every world. */
  lemma {:induction false} WorldDbReachable(safety: nat, es: seq<Event>)
    ensures Reachable(RunWorld(Start(safety), es).db)
    ensures exists ops :: RunWorld(Start(safety), es).db == Run(EmptyDb(safety), ops)
  {
    if es == [] {
      assert RunWorld(Start(safety), es).db == Run(EmptyDb(safety), []);
    } else {
      var w := RunWorld(Start(safety), es[..|es| - 1]);
      WorldDbReachable(safety, es[..|es| - 1]);
      var ops :| w.db == Run(EmptyDb(safety), ops);
      EventIsTransaction(w, es[|es| - 1]);
      var op := TransactionOf(w, es[|es| - 1]);
      if op.Some? {
        assert (ops + [op.value])[..|ops|] == ops;
        assert Next(w, es[|es| - 1]).db == Run(EmptyDb(safety), ops + [op.value]);
      }
    }
  }

  // ---------------------------------------------------------------------------
  // Landed money and settled rows, payout by payout
  // ---------------------------------------------------------------------------

  /** The transfer landed for one of the first `n` payouts, and that payout is SETTLED. */
  function LandedSettled(ps: seq<Payout>, n: nat): Transfer -> int {
    (t: Transfer) => if t.fate == Landed && t.payout < n && t.payout < |ps| && ps[t.payout].status == SETTLED then t.amount else 0
  }

  function LandedFor(ps: seq<Payout>, p: nat): Transfer -> int {
    (t: Transfer) => if t.fate == Landed && t.payout == p && p < |ps| && ps[p].status == SETTLED then t.amount else 0
  }

  lemma {:induction false} SumSplit<T>(s: seq<T>, f: T -> int, g: T -> int, h: T -> int)
    requires forall i :: 0 <= i < |s| ==> h(s[i]) == f(s[i]) + g(s[i])
    ensures Sum(s, h) == Sum(s, f) + Sum(s, g)
  {
    if s != [] {
      SumSplit(s[..|s| - 1], f, g, h);
    }
  }

  lemma LandedForIsGram(ps: seq<Payout>, chain: seq<Transfer>, p: nat)
    requires p < |ps| && ChainOk(ps, chain) && Proven(ps[p], p, chain)
    ensures Sum(chain, LandedFor(ps, p)) == SettledGram()(ps[p])
  {
    if ps[p].status == SETTLED {
      var i :| 0 <= i < |chain| && chain[i] == Transfer(p, ps[p].destination, ps[p].gram.value, Landed);
      SumOnly(chain, LandedFor(ps, p), i);
    } else {
      SumZero(chain, LandedFor(ps, p));
    }
  }

  lemma {:induction false} LandedIsSettled(ps: seq<Payout>, chain: seq<Transfer>, n: nat)
    requires n <= |ps| && ChainOk(ps, chain) && SettledProven(ps, chain)
    ensures Sum(chain, LandedSettled(ps, n)) == Sum(ps[..n], SettledGram())
  {
    if n == 0 {
      SumZero(chain, LandedSettled(ps, 0));
    } else {
      LandedIsSettled(ps, chain, n - 1);
      assert Proven(ps[n - 1], n - 1, chain);
      LandedForIsGram(ps, chain, n - 1);
      SumSplit(chain, LandedSettled(ps, n - 1), LandedFor(ps, n - 1), LandedSettled(ps, n));
      assert ps[..n] == ps[..n - 1] + [ps[n - 1]];
      SumAppend(ps[..n - 1], ps[n - 1], SettledGram());
    }
  }

  /** In every world, funding less fees less the treasury row is exactly the money that landed for settled payouts. */
  lemma TreasuryMatchesChain(safety: nat, es: seq<Event>)
    ensures var w := RunWorld(Start(safety), es);
            Sum(w.db.treasuryTxs, Funding()) - Balance(w.db.journals, System(NetworkFeeExpenseGram), AVAILABLE) - w.db.confirmed
              == Sum(w.chain, LandedSettled(w.db.payouts, |w.db.payouts|))
  {
    var w := RunWorld(Start(safety), es);
    RunWorldSafe(safety, es);
    WorldDbReachable(safety, es);
    TreasuryAgrees(w.db);
    LandedIsSettled(w.db.payouts, w.chain, |w.db.payouts|);
    assert w.db.payouts[..|w.db.payouts|] == w.db.payouts;
  }
}
