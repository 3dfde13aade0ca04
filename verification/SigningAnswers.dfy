/** What a signing claim is answered, said of the record and the request themselves, and who holds a record until when. */
module SigningAnswers {
  import opened Basics
  import Decimal
  import MoneyMath
  import S = SeqnoTables
  import opened SigningRequests

  // ---------------------------------------------------------------------------
  // One claim
  // ---------------------------------------------------------------------------

  predicate Blank(s: string) { forall i :: 0 <= i < |s| ==> MoneyMath.IsSpace(s[i]) }

  lemma {:induction false} TrimsToNothing(s: string)
    ensures MoneyMath.Trim(s) == "" <==> Blank(s)
    decreases |s|
  {
    if s != [] && MoneyMath.IsSpace(s[0]) {
      TrimsToNothing(s[1..]);
      assert Blank(s) <==> Blank(s[1..]) by {
        if Blank(s[1..]) {
          forall i | 0 <= i < |s| ensures MoneyMath.IsSpace(s[i]) { assert i > 0 ==> s[i] == s[1..][i - 1]; }
        }
      }
    } else if s != [] && MoneyMath.IsSpace(s[|s| - 1]) {
      assert !Blank(s);
      TrimsToNothing(s[..|s| - 1]);
      assert s[..|s| - 1][0] == s[0];
    }
  }

  /** The payload the wallet contract would sign for this request under the record's seqno and deadline. */
  function Unsigned(cfg: Config, r: Record, q: SignRequest): Payload {
    Payload(q.from, q.destination, q.amount, r.seqno, r.validUntil, cfg.walletId, cfg.comment(q.payout))
  }

  /** The request asks for exactly what the record was registered with. */
  ghost predicate SameRequest(cfg: Config, r: Record, q: SignRequest) {
    && r.from == q.from && r.destination == q.destination && r.amount == q.amount
    && var p := Unsigned(cfg, r, q);
       && r.unsignedHash == cfg.digest(p)
       && r.intentHash == cfg.intentHash(Intent(q.network, q.asset, cfg.key, p, cfg.digest(p)))
  }

  /** What the request itself must satisfy, in the order it is judged. */
  ghost function Refusal(cfg: Config, q: SignRequest): Option<SignError> {
    if q.asset != cfg.asset then Some(AssetMismatch)
    else if q.network != cfg.network then Some(NetworkMismatch)
    else if cfg.payoutWallet !in {"", q.from} then Some(WalletMismatch)
    else if |q.amount| == 0 || !Decimal.AllDigits(q.amount) || Decimal.FromDecimal(q.amount) == 0 then Some(InvalidAmount)
    else if Blank(q.destination) then Some(InvalidDestination)
    else None
  }

  lemma RefusesAsJudged(cfg: Config, q: SignRequest)
    ensures SignableError(cfg, q) == Refusal(cfg, q)
  {
    TrimsToNothing(q.destination);
  }

  /** The record can be signed for: its seqno and both addresses are usable. */
  predicate Buildable(cfg: Config, q: SignRequest, seqno: int) { seqno >= 0 && cfg.parses(q.from) && cfg.parses(q.destination) }

  function Unusable(cfg: Config, q: SignRequest, seqno: int): SignError {
    if seqno < 0 then InvalidSeqno else if !cfg.parses(q.from) then InvalidWalletAddress else InvalidDestinationAddress
  }

  /**
   A claim on a registered request: another request is refused, a completed one gets its result back, and otherwise it is
   granted exactly when nobody holds the record or the holder's lease has ended.
   */
  lemma ClaimAnswers(cfg: Config, es: seq<Event>, q: SignRequest, token: nat, now: int, validUntil: int)
    requires Sensible(cfg) && q.id in Run(cfg, es).store.requests
    ensures ClaimedAs(cfg, Run(cfg, es).store, q, token, now, Claim(cfg, Run(cfg, es).store, q, token, now, validUntil))
  {
    var w := Run(cfg, es);
    RunSound(cfg, es);
    assert RecordOk(cfg, w.store.seqnos, w.store.requests[q.id]);
    RefusesAsJudged(cfg, q);
    ClaimOfRecord(cfg, w.store, q, token, now, validUntil);
  }

  ghost predicate ClaimedAs(cfg: Config, st: Store, q: SignRequest, token: nat, now: int, step: ClaimStep)
    requires q.id in st.requests
  {
    var r := st.requests[q.id];
    if Refusal(cfg, q).Some? then step == ClaimStep(st, Err(Refusal(cfg, q).value))
    else if !Buildable(cfg, q, r.seqno) then step == ClaimStep(st, Err(Unusable(cfg, q, r.seqno)))
    else if !SameRequest(cfg, r, q) then step == ClaimStep(st, Err(PayloadMismatch))
    else match r.status
         case COMPLETED => r.reference.Some? && step == ClaimStep(st, Ok(AlreadyCompleted(r.reference.value)))
         case CLAIMED =>
           if now < r.leaseUntil then step == ClaimStep(st, Err(InFlight))
           else step == ClaimStep(Leased(cfg, st, q.id, token, now), Ok(Granted(Unsigned(cfg, r, q))))
         case FAILED_RETRYABLE =>
           step == ClaimStep(Leased(cfg, st, q.id, token, now), Ok(Granted(Unsigned(cfg, r, q))))
  }

  /** The record is held under this token for one lease time from now; what it was registered with stays. */
  function Leased(cfg: Config, st: Store, id: string, token: nat, now: int): Store
    requires id in st.requests
  {
    st.(requests := st.requests[id := st.requests[id].(status := CLAIMED, token := token, leaseUntil := now + cfg.leaseTime)])
  }

  lemma ClaimOfRecord(cfg: Config, st: Store, q: SignRequest, token: nat, now: int, validUntil: int)
    requires q.id in st.requests && RecordOk(cfg, st.seqnos, st.requests[q.id])
    requires SignableError(cfg, q) == Refusal(cfg, q)
    ensures ClaimedAs(cfg, st, q, token, now, Claim(cfg, st, q, token, now, validUntil))
  {
  }

  /** A new request is registered under the seqno allocated to its payout and held for one lease time, or leaves no trace. */
  lemma RegistrationAnswers(cfg: Config, st: Store, q: SignRequest, token: nat, now: int, validUntil: int)
    requires q.id !in st.requests
    ensures var step := Claim(cfg, st, q, token, now, validUntil);
            var (seqnos, seqno) := S.Allocate(st.seqnos, q.from, q.payout, cfg.initialSeqno);
            var p := Payload(q.from, q.destination, q.amount, seqno, validUntil, cfg.walletId, cfg.comment(q.payout));
            if Refusal(cfg, q).Some? then step == ClaimStep(st, Err(Refusal(cfg, q).value))
            else if !Buildable(cfg, q, seqno) then step == ClaimStep(st, Err(Unusable(cfg, q, seqno)))
            else step == ClaimStep(Store(seqnos, st.requests[q.id := Record(q.payout, q.from, q.destination, q.amount, seqno, validUntil,
                                           cfg.digest(p), cfg.intentHash(Intent(q.network, q.asset, cfg.key, p, cfg.digest(p))),
                                           CLAIMED, None, token, now + cfg.leaseTime)]),
                                   Ok(Granted(p)))
  {
    RefusesAsJudged(cfg, q);
  }

  /** Only the holder's outcome is recorded, and only on its own record. */
  lemma OutcomeAnswers(st: Store, id: string, token: nat, signed: Signed)
    ensures var held := id in st.requests && st.requests[id].status == CLAIMED && st.requests[id].token == token;
            && Complete(st, id, token, signed)
               == (if held then st.(requests := st.requests[id := st.requests[id].(status := COMPLETED, reference := Some(signed))]) else st)
            && Fail(st, id, token)
               == (if held then st.(requests := st.requests[id := st.requests[id].(status := FAILED_RETRYABLE)]) else st)
  {
  }

  // ---------------------------------------------------------------------------
  // One holder at a time
  // ---------------------------------------------------------------------------

  /** Event `i` of the run claims `id` under a new token and is granted. */
  ghost predicate Grants(cfg: Config, es: seq<Event>, i: nat, id: string)
    requires i < |es|
  {
    && es[i].Start? && es[i].request.id == id
    && var w := Run(cfg, es[..i]);
       && es[i].token !in w.workers
       && var r := Claim(cfg, w.store, es[i].request, es[i].token, es[i].now, es[i].validUntil).result; r.Ok? && r.value.Granted?
  }

  /** The record is still held by the claim, or already completed. */
  ghost predicate Held(w: World, id: string, token: nat, leaseUntil: int) {
    && id in w.store.requests && token in w.workers
    && var r := w.store.requests[id];
       (r.status == CLAIMED && r.token == token && r.leaseUntil == leaseUntil) || (r.status == COMPLETED && r.reference.Some?)
  }

  /** The event neither gives the claim up nor comes for the same record after the lease. */
  predicate Within(e: Event, id: string, token: nat, leaseUntil: int) {
    e != GiveUp(token) && (e.Start? && e.request.id == id ==> e.now < leaseUntil)
  }

  lemma GrantHolds(cfg: Config, w: World, q: SignRequest, token: nat, now: int, validUntil: int)
    requires token !in w.workers
    requires var r := Claim(cfg, w.store, q, token, now, validUntil).result; r.Ok? && r.value.Granted?
    ensures Held(Next(cfg, w, Start(q, token, now, validUntil)), q.id, token, now + cfg.leaseTime)
  {
  }

  lemma StartKeepsHeld(cfg: Config, w: World, q: SignRequest, t: nat, now: int, validUntil: int,
                       id: string, token: nat, leaseUntil: int)
    requires Held(w, id, token, leaseUntil) && (q.id == id ==> now < leaseUntil)
    ensures Held(Next(cfg, w, Start(q, t, now, validUntil)), id, token, leaseUntil)
    ensures q.id == id ==> var r := Claim(cfg, w.store, q, t, now, validUntil).result; !(r.Ok? && r.value.Granted?)
  {
  }

  lemma StepKeepsHeld(cfg: Config, w: World, e: Event, id: string, token: nat, leaseUntil: int)
    requires Held(w, id, token, leaseUntil) && Within(e, id, token, leaseUntil)
    ensures Held(Next(cfg, w, e), id, token, leaseUntil)
  {
    match e
    case Start(q, t, now, validUntil) => StartKeepsHeld(cfg, w, q, t, now, validUntil, id, token, leaseUntil);
    case _ =>
  }

  lemma {:induction false} StaysHeld(cfg: Config, es: seq<Event>, i: nat, id: string)
    requires i < |es| && Grants(cfg, es, i, id)
    requires forall k :: i < k < |es| ==> Within(es[k], id, es[i].token, es[i].now + cfg.leaseTime)
    ensures Held(Run(cfg, es), id, es[i].token, es[i].now + cfg.leaseTime)
    decreases |es|
  {
    var init := es[..|es| - 1];
    if i == |es| - 1 {
      GrantHolds(cfg, Run(cfg, init), es[i].request, es[i].token, es[i].now, es[i].validUntil);
    } else {
      assert init[..i] == es[..i];
      StaysHeld(cfg, init, i, id);
      StepKeepsHeld(cfg, Run(cfg, init), es[|es| - 1], id, es[i].token, es[i].now + cfg.leaseTime);
    }
  }

  /** No two claims of one id are granted within one lease unless the first holder gave up in between. */
  lemma OneHolderPerLease(cfg: Config, es: seq<Event>, i: nat, j: nat, id: string)
    requires i < j < |es| && Grants(cfg, es, i, id) && Grants(cfg, es, j, id)
    requires forall k :: i < k <= j && es[k].Start? && es[k].request.id == id ==> es[k].now < es[i].now + cfg.leaseTime
    ensures exists k :: i < k < j && es[k] == GiveUp(es[i].token)
  {
    if forall k :: i < k < j ==> es[k] != GiveUp(es[i].token) {
      var before := es[..j];
      assert before[..i] == es[..i];
      StaysHeld(cfg, before, i, id);
      var e := es[j];
      StartKeepsHeld(cfg, Run(cfg, before), e.request, e.token, e.now, e.validUntil, id, es[i].token, es[i].now + cfg.leaseTime);
    }
  }
}
