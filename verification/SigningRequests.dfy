/**
 Signing claims: one immutable intent per sign request id, leased to one claim token at a time. Any number of workers
 may hold old claims; digests and the intent hash are whatever functions the configuration names.
 */
module SigningRequests {
  import opened Basics
  import Decimal
  import MoneyMath
  import S = SeqnoTables

  /** What the wallet contract signs, and the two addresses the request names. */
  datatype Payload = Payload(
    from: string, destination: string, amount: string, seqno: int, validUntil: int, walletId: int, comment: string)

  datatype Intent = Intent(network: string, asset: string, key: string, payload: Payload, digest: string)

  datatype Config = Config(
    asset: string,
    network: string,
    payoutWallet: string,
    key: string,
    walletId: int,
    initialSeqno: int,
    leaseTime: int,
    parses: string -> bool,
    comment: nat -> string,
    digest: Payload -> string,
    intentHash: Intent -> string)

  datatype SignRequest = SignRequest(
    id: string, payout: nat, asset: string, network: string, from: string, destination: string, amount: string)

  datatype RequestStatus = CLAIMED | COMPLETED | FAILED_RETRYABLE

  datatype Signed = Signed(digest: string, signature: string)

  datatype Record = Record(
    payout: nat, from: string, destination: string, amount: string, seqno: int, validUntil: int,
    unsignedHash: string, intentHash: string,
    status: RequestStatus, reference: Option<Signed>, token: nat, leaseUntil: int)

  datatype SignError =
    | AssetMismatch | NetworkMismatch | WalletMismatch | InvalidAmount | InvalidDestination
    | InvalidSeqno | InvalidWalletAddress | InvalidDestinationAddress
    | PayloadMismatch | InFlight | NoSignature

  datatype Claimed = AlreadyCompleted(result: Signed) | Granted(payload: Payload)

  /** The two tables a claim touches. */
  datatype Store = Store(seqnos: S.Tables, requests: map<string, Record>)

  // ---------------------------------------------------------------------------
  // Claim, complete, fail
  // ---------------------------------------------------------------------------

  function SignableError(cfg: Config, q: SignRequest): Option<SignError> {
    if q.asset != cfg.asset then Some(AssetMismatch)
    else if q.network != cfg.network then Some(NetworkMismatch)
    else if cfg.payoutWallet != "" && q.from != cfg.payoutWallet then Some(WalletMismatch)
    else if q.amount == "" || !Decimal.AllDigits(q.amount) || Decimal.FromDecimal(q.amount) <= 0 then Some(InvalidAmount)
    else if MoneyMath.Trim(q.destination) == "" then Some(InvalidDestination)
    else None
  }

  function BuildError(cfg: Config, q: SignRequest, seqno: int): Option<SignError> {
    if seqno < 0 then Some(InvalidSeqno)
    else if !cfg.parses(q.from) then Some(InvalidWalletAddress)
    else if !cfg.parses(q.destination) then Some(InvalidDestinationAddress)
    else None
  }

  function PayloadOf(cfg: Config, q: SignRequest, seqno: int, validUntil: int): Payload {
    Payload(q.from, q.destination, q.amount, seqno, validUntil, cfg.walletId, cfg.comment(q.payout))
  }

  function IntentOf(cfg: Config, q: SignRequest, p: Payload): Intent {
    Intent(q.network, q.asset, cfg.key, p, cfg.digest(p))
  }

  predicate Mismatch(cfg: Config, r: Record, q: SignRequest, p: Payload) {
    || r.intentHash != cfg.intentHash(IntentOf(cfg, q, p))
    || r.unsignedHash != cfg.digest(p)
    || (r.from != "" && r.from != q.from)
    || (r.destination != "" && r.destination != q.destination)
    || (r.amount != "" && r.amount != q.amount)
  }

  datatype ClaimStep = ClaimStep(store: Store, result: Result<Claimed, SignError>)

  function ClaimExisting(cfg: Config, st: Store, q: SignRequest, token: nat, now: int): ClaimStep
    requires q.id in st.requests
  {
    var r := st.requests[q.id];
    var p := PayloadOf(cfg, q, r.seqno, r.validUntil);
    match BuildError(cfg, q, r.seqno)
    case Some(e) => ClaimStep(st, Err(e))
    case None =>
      if Mismatch(cfg, r, q, p) then ClaimStep(st, Err(PayloadMismatch))
      else if r.status == COMPLETED && r.reference.Some? then ClaimStep(st, Ok(AlreadyCompleted(r.reference.value)))
      else if r.status == CLAIMED && r.leaseUntil > now then ClaimStep(st, Err(InFlight))
      else
        var claimed := r.(status := CLAIMED, token := token, leaseUntil := now + cfg.leaseTime);
        ClaimStep(st.(requests := st.requests[q.id := claimed]), Ok(Granted(p)))
  }

  /** A new request takes the payout's seqno; if no payload can be built the allocation is undone with the rest. */
  function ClaimFresh(cfg: Config, st: Store, q: SignRequest, token: nat, now: int, validUntil: int): ClaimStep {
    var (seqnos, seqno) := S.Allocate(st.seqnos, q.from, q.payout, cfg.initialSeqno);
    match BuildError(cfg, q, seqno)
    case Some(e) => ClaimStep(st, Err(e))
    case None =>
      var p := PayloadOf(cfg, q, seqno, validUntil);
      var r := Record(q.payout, q.from, q.destination, q.amount, seqno, validUntil, cfg.digest(p),
                      cfg.intentHash(IntentOf(cfg, q, p)), CLAIMED, None, token, now + cfg.leaseTime);
      ClaimStep(Store(seqnos, st.requests[q.id := r]), Ok(Granted(p)))
  }

  function Claim(cfg: Config, st: Store, q: SignRequest, token: nat, now: int, validUntil: int): ClaimStep {
    match SignableError(cfg, q)
    case Some(e) => ClaimStep(st, Err(e))
    case None =>
      if q.id in st.requests then ClaimExisting(cfg, st, q, token, now)
      else ClaimFresh(cfg, st, q, token, now, validUntil)
  }

  predicate Holds(st: Store, id: string, token: nat) {
    id in st.requests && st.requests[id].token == token && st.requests[id].status == CLAIMED
  }

  /** Fenced by the claim token: a worker whose claim was taken over changes nothing. */
  function Complete(st: Store, id: string, token: nat, signed: Signed): Store {
    if Holds(st, id, token)
    then st.(requests := st.requests[id := st.requests[id].(status := COMPLETED, reference := Some(signed))])
    else st
  }

  function Fail(st: Store, id: string, token: nat): Store {
    if Holds(st, id, token) then st.(requests := st.requests[id := st.requests[id].(status := FAILED_RETRYABLE)]) else st
  }

  // ---------------------------------------------------------------------------
  // Workers, the KMS, and runs
  // ---------------------------------------------------------------------------

  datatype Work = Work(id: string, payload: Payload)

  datatype World = World(store: Store, workers: map<nat, Work>, kms: seq<Work>)

  datatype Event =
    | Start(request: SignRequest, token: nat, now: int, validUntil: int)
    | CallKms(token: nat)
    | Finish(token: nat, signature: string)
    | GiveUp(token: nat)
    | Elsewhere(call: S.Call)

  /** Claim tokens are never reused; sequence numbers are allocated by claims only. */
  ghost function Next(cfg: Config, w: World, e: Event): World {
    match e
    case Start(q, token, now, validUntil) =>
      if token in w.workers then w
      else
        var step := Claim(cfg, w.store, q, token, now, validUntil);
        var next := w.(store := step.store);
        if step.result.Ok? && step.result.value.Granted?
        then next.(workers := w.workers[token := Work(q.id, step.result.value.payload)])
        else next
    case CallKms(token) => if token in w.workers then w.(kms := w.kms + [w.workers[token]]) else w
    case Finish(token, signature) =>
      if token in w.workers
      then w.(store := Complete(w.store, w.workers[token].id, token, Signed(cfg.digest(w.workers[token].payload), signature)))
      else w
    case GiveUp(token) => if token in w.workers then w.(store := Fail(w.store, w.workers[token].id, token)) else w
    case Elsewhere(call) =>
      if call.DoAllocate? then w else w.(store := w.store.(seqnos := S.Do(w.store.seqnos, call)))
  }

  const NoWorld := World(Store(S.NoTables, map[]), map[], [])

  ghost function Run(cfg: Config, es: seq<Event>): World {
    if es == [] then NoWorld else Next(cfg, Run(cfg, es[..|es| - 1]), es[|es| - 1])
  }

  // ---------------------------------------------------------------------------
  // The invariant
  // ---------------------------------------------------------------------------

  predicate Allocated(rows: seq<S.Allocation>, payout: nat, seqno: int) {
    exists k :: 0 <= k < |rows| && rows[k].payout == payout && rows[k].seqno == seqno
  }

  /** The payload is the one the record was registered with. */
  ghost predicate SignsRecord(cfg: Config, requests: map<string, Record>, work: Work) {
    && work.id in requests
    && var r := requests[work.id];
       var p := work.payload;
       && cfg.digest(p) == r.unsignedHash
       && p.from == r.from && p.destination == r.destination && p.amount == r.amount
       && p.seqno == r.seqno && p.validUntil == r.validUntil && p.walletId == cfg.walletId
  }

  ghost predicate RecordOk(cfg: Config, seqnos: S.Tables, r: Record) {
    && r.from != "" && r.destination != "" && r.amount != ""
    && Allocated(seqnos.allocations, r.payout, r.seqno)
    && (r.status == COMPLETED ==> r.reference.Some?)
    && (r.reference.Some? ==> r.reference.value.digest == r.unsignedHash)
  }

  ghost predicate Sound(cfg: Config, w: World) {
    && S.Ordered(w.store.seqnos)
    && (forall id :: id in w.store.requests ==> RecordOk(cfg, w.store.seqnos, w.store.requests[id]))
    && (forall t :: t in w.workers ==> SignsRecord(cfg, w.store.requests, w.workers[t]))
    && (forall i :: 0 <= i < |w.kms| ==> SignsRecord(cfg, w.store.requests, w.kms[i]))
  }

  /** Records keep their intent; a completed one keeps everything. */
  ghost predicate RecordsKept(before: map<string, Record>, after: map<string, Record>) {
    forall id :: id in before ==>
      && id in after
      && after[id] == before[id].(status := after[id].status, reference := after[id].reference,
                                  token := after[id].token, leaseUntil := after[id].leaseUntil)
      && (before[id].status == COMPLETED && before[id].reference.Some? ==> after[id] == before[id])
  }

  /** An address that parses is not the empty string. */
  ghost predicate Sensible(cfg: Config) { !cfg.parses("") }

  lemma ClaimExistingKeeps(cfg: Config, st: Store, q: SignRequest, token: nat, now: int)
    requires q.id in st.requests && SignableError(cfg, q).None? && RecordOk(cfg, st.seqnos, st.requests[q.id])
    ensures var step := ClaimExisting(cfg, st, q, token, now);
            && step.store.seqnos == st.seqnos && RecordsKept(st.requests, step.store.requests)
            && (forall id :: id in step.store.requests ==> id in st.requests)
            && RecordOk(cfg, st.seqnos, step.store.requests[q.id])
            && (forall id :: id in st.requests && id != q.id ==> step.store.requests[id] == st.requests[id])
            && (step.result.Ok? && step.result.value.Granted? ==>
                  SignsRecord(cfg, step.store.requests, Work(q.id, step.result.value.payload)))
  {
  }

  lemma AllocateFinds(t: S.Tables, address: string, payout: nat, initial: int)
    requires S.Ordered(t)
    ensures var (next, seqno) := S.Allocate(t, address, payout, initial);
            S.Ordered(next) && S.Grows(t, next) && Allocated(next.allocations, payout, seqno)
  {
    S.AllocateGrows(t, address, payout, initial);
    var (next, seqno) := S.Allocate(t, address, payout, initial);
    var k := S.FindAllocation(t.allocations, payout);
    if k.None? {
      assert next.allocations[|t.allocations|].payout == payout;
    } else {
      assert next.allocations[k.value].payout == payout;
    }
  }

  lemma ClaimFreshKeeps(cfg: Config, st: Store, q: SignRequest, token: nat, now: int, validUntil: int)
    requires Sensible(cfg) && q.id !in st.requests && SignableError(cfg, q).None?
    requires S.Ordered(st.seqnos)
    ensures var step := ClaimFresh(cfg, st, q, token, now, validUntil);
            && S.Ordered(step.store.seqnos) && S.Grows(st.seqnos, step.store.seqnos)
            && (step.result.Err? ==> step.store == st)
            && (step.result.Ok? ==>
                  && step.result.value.Granted?
                  && q.id in step.store.requests
                  && step.store.requests == st.requests[q.id := step.store.requests[q.id]]
                  && RecordOk(cfg, step.store.seqnos, step.store.requests[q.id])
                  && SignsRecord(cfg, step.store.requests, Work(q.id, step.result.value.payload)))
  {
    AllocateFinds(st.seqnos, q.from, q.payout, cfg.initialSeqno);
    S.SameRowsGrow(st.seqnos, st.seqnos);
    assert MoneyMath.Trim("") == "";
  }

  lemma AllocatedStays(s: S.Tables, t: S.Tables, payout: nat, seqno: int)
    requires S.Grows(s, t) && Allocated(s.allocations, payout, seqno)
    ensures Allocated(t.allocations, payout, seqno)
  {
    var k :| 0 <= k < |s.allocations| && s.allocations[k].payout == payout && s.allocations[k].seqno == seqno;
    assert t.allocations[k] == s.allocations[k].(status := t.allocations[k].status);
  }

  /** A store whose tables only grew still backs every worker and every KMS call. */
  lemma StoreKeeps(cfg: Config, w: World, store: Store)
    requires Sound(cfg, w) && S.Ordered(store.seqnos) && S.Grows(w.store.seqnos, store.seqnos)
    requires RecordsKept(w.store.requests, store.requests)
    requires forall id :: id in store.requests && (id !in w.store.requests || store.requests[id] != w.store.requests[id]) ==>
               RecordOk(cfg, store.seqnos, store.requests[id])
    ensures Sound(cfg, w.(store := store))
  {
    forall id | id in store.requests ensures RecordOk(cfg, store.seqnos, store.requests[id]) {
      if id in w.store.requests && store.requests[id] == w.store.requests[id] {
        AllocatedStays(w.store.seqnos, store.seqnos, store.requests[id].payout, store.requests[id].seqno);
      }
    }
  }

  /** What a claim leaves: a sound store, and a granted payload that signs the record. */
  ghost predicate ClaimKept(cfg: Config, w: World, q: SignRequest, step: ClaimStep) {
    && Sound(cfg, w.(store := step.store))
    && RecordsKept(w.store.requests, step.store.requests)
    && (step.result.Ok? && step.result.value.Granted? ==>
          SignsRecord(cfg, step.store.requests, Work(q.id, step.result.value.payload)))
  }

  lemma ClaimExistingSound(cfg: Config, w: World, q: SignRequest, token: nat, now: int)
    requires Sound(cfg, w) && q.id in w.store.requests && SignableError(cfg, q).None?
    ensures ClaimKept(cfg, w, q, ClaimExisting(cfg, w.store, q, token, now))
  {
    S.SameRowsGrow(w.store.seqnos, w.store.seqnos);
    ClaimExistingKeeps(cfg, w.store, q, token, now);
    StoreKeeps(cfg, w, ClaimExisting(cfg, w.store, q, token, now).store);
  }

  lemma ClaimFreshSound(cfg: Config, w: World, q: SignRequest, token: nat, now: int, validUntil: int)
    requires Sensible(cfg) && Sound(cfg, w) && q.id !in w.store.requests && SignableError(cfg, q).None?
    ensures ClaimKept(cfg, w, q, ClaimFresh(cfg, w.store, q, token, now, validUntil))
  {
    var step := ClaimFresh(cfg, w.store, q, token, now, validUntil);
    ClaimFreshKeeps(cfg, w.store, q, token, now, validUntil);
    if step.result.Ok? {
      StoreKeeps(cfg, w, step.store);
    }
  }

  lemma StartKeeps(cfg: Config, w: World, q: SignRequest, token: nat, now: int, validUntil: int)
    requires Sensible(cfg) && Sound(cfg, w)
    ensures Sound(cfg, Next(cfg, w, Start(q, token, now, validUntil)))
    ensures RecordsKept(w.store.requests, Next(cfg, w, Start(q, token, now, validUntil)).store.requests)
  {
    if SignableError(cfg, q).None? {
      if q.id in w.store.requests {
        ClaimExistingSound(cfg, w, q, token, now);
      } else {
        ClaimFreshSound(cfg, w, q, token, now, validUntil);
      }
    }
    StartFromClaim(cfg, w, q, token, now, validUntil);
  }

  lemma StartFromClaim(cfg: Config, w: World, q: SignRequest, token: nat, now: int, validUntil: int)
    requires Sound(cfg, w) && (SignableError(cfg, q).None? ==> ClaimKept(cfg, w, q, Claim(cfg, w.store, q, token, now, validUntil)))
    ensures Sound(cfg, Next(cfg, w, Start(q, token, now, validUntil)))
    ensures RecordsKept(w.store.requests, Next(cfg, w, Start(q, token, now, validUntil)).store.requests)
  {
    var step := Claim(cfg, w.store, q, token, now, validUntil);
    if SignableError(cfg, q).None? && token !in w.workers && step.result.Ok? && step.result.value.Granted? {
      WorkerJoins(cfg, w.(store := step.store), token, Work(q.id, step.result.value.payload));
    }
  }

  lemma WorkerJoins(cfg: Config, w: World, token: nat, work: Work)
    requires Sound(cfg, w) && SignsRecord(cfg, w.store.requests, work)
    ensures Sound(cfg, w.(workers := w.workers[token := work]))
  {
  }

  lemma FencedKeeps(cfg: Config, w: World, store: Store, id: string)
    requires Sound(cfg, w) && id in w.store.requests && w.store.requests[id].status == CLAIMED
    requires id in store.requests && store == w.store.(requests := w.store.requests[id := store.requests[id]])
    requires RecordOk(cfg, w.store.seqnos, store.requests[id])
    requires store.requests[id] == w.store.requests[id].(status := store.requests[id].status, reference := store.requests[id].reference)
    ensures Sound(cfg, w.(store := store)) && RecordsKept(w.store.requests, store.requests)
  {
    S.SameRowsGrow(w.store.seqnos, w.store.seqnos);
    StoreKeeps(cfg, w, store);
  }

  lemma ElsewhereKeeps(cfg: Config, w: World, call: S.Call)
    requires Sound(cfg, w) && !call.DoAllocate?
    ensures Sound(cfg, w.(store := w.store.(seqnos := S.Do(w.store.seqnos, call))))
    ensures RecordsKept(w.store.requests, w.store.requests)
  {
    S.CallGrows(w.store.seqnos, call);
    StoreKeeps(cfg, w, w.store.(seqnos := S.Do(w.store.seqnos, call)));
  }

  lemma CallKmsKeeps(cfg: Config, w: World, token: nat)
    requires Sound(cfg, w)
    ensures Sound(cfg, Next(cfg, w, CallKms(token)))
    ensures RecordsKept(w.store.requests, Next(cfg, w, CallKms(token)).store.requests)
  {
  }

  lemma FinishKeeps(cfg: Config, w: World, token: nat, signature: string)
    requires Sound(cfg, w)
    ensures Sound(cfg, Next(cfg, w, Finish(token, signature)))
    ensures RecordsKept(w.store.requests, Next(cfg, w, Finish(token, signature)).store.requests)
  {
    if token in w.workers && Holds(w.store, w.workers[token].id, token) {
      FencedKeeps(cfg, w, Next(cfg, w, Finish(token, signature)).store, w.workers[token].id);
    }
  }

  lemma GiveUpKeeps(cfg: Config, w: World, token: nat)
    requires Sound(cfg, w)
    ensures Sound(cfg, Next(cfg, w, GiveUp(token)))
    ensures RecordsKept(w.store.requests, Next(cfg, w, GiveUp(token)).store.requests)
  {
    if token in w.workers && Holds(w.store, w.workers[token].id, token) {
      FencedKeeps(cfg, w, Next(cfg, w, GiveUp(token)).store, w.workers[token].id);
    }
  }

  lemma NextKeeps(cfg: Config, w: World, e: Event)
    requires Sensible(cfg) && Sound(cfg, w)
    ensures Sound(cfg, Next(cfg, w, e)) && RecordsKept(w.store.requests, Next(cfg, w, e).store.requests)
    ensures w.kms <= Next(cfg, w, e).kms
  {
    match e
    case Start(q, token, now, validUntil) => StartKeeps(cfg, w, q, token, now, validUntil);
    case CallKms(token) => CallKmsKeeps(cfg, w, token);
    case Finish(token, signature) => FinishKeeps(cfg, w, token, signature);
    case GiveUp(token) => GiveUpKeeps(cfg, w, token);
    case Elsewhere(call) => if !call.DoAllocate? { ElsewhereKeeps(cfg, w, call); }
  }

  lemma {:induction false} RunSound(cfg: Config, es: seq<Event>)
    requires Sensible(cfg)
    ensures Sound(cfg, Run(cfg, es))
  {
    if es != [] {
      RunSound(cfg, es[..|es| - 1]);
      NextKeeps(cfg, Run(cfg, es[..|es| - 1]), es[|es| - 1]);
    }
  }

  lemma {:induction false} RunKeepsRecords(cfg: Config, es: seq<Event>, i: nat)
    requires Sensible(cfg) && i <= |es|
    ensures RecordsKept(Run(cfg, es[..i]).store.requests, Run(cfg, es).store.requests)
  {
    if i == |es| {
      assert es[..i] == es;
    } else {
      var before := es[..|es| - 1];
      RunKeepsRecords(cfg, before, i);
      assert before[..i] == es[..i];
      RunSound(cfg, before);
      NextKeeps(cfg, Run(cfg, before), es[|es| - 1]);
    }
  }

  // ---------------------------------------------------------------------------
  // Theorems
  // ---------------------------------------------------------------------------

  /**
   Whatever workers, leases, failures and altered retries did, all KMS calls for one sign request id carry one digest
   and one destination, amount and seqno, and that seqno is the one allocated to the payout of the record.
   */
  lemma OneDigestPerRequest(cfg: Config, es: seq<Event>, i: nat, j: nat)
    requires Sensible(cfg) && i < |Run(cfg, es).kms| && j < |Run(cfg, es).kms|
    requires Run(cfg, es).kms[i].id == Run(cfg, es).kms[j].id
    ensures var a, b := Run(cfg, es).kms[i].payload, Run(cfg, es).kms[j].payload;
            cfg.digest(a) == cfg.digest(b) && a.(comment := b.comment) == b
    ensures var w := Run(cfg, es);
            w.kms[i].id in w.store.requests
            && Allocated(w.store.seqnos.allocations, w.store.requests[w.kms[i].id].payout, w.kms[i].payload.seqno)
  {
    RunSound(cfg, es);
    var w := Run(cfg, es);
    assert SignsRecord(cfg, w.store.requests, w.kms[i]) && SignsRecord(cfg, w.store.requests, w.kms[j]);
    assert RecordOk(cfg, w.store.seqnos, w.store.requests[w.kms[i].id]);
  }

  // ---------------------------------------------------------------------------
  // One seqno of a wallet is signed for one payout
  // ---------------------------------------------------------------------------

  /** The record names the wallet on which its payout's seqno was allocated. */
  predicate OwnWallet(rows: seq<S.Allocation>, r: Record) {
    exists k :: 0 <= k < |rows| && rows[k].payout == r.payout && rows[k].seqno == r.seqno && rows[k].address == r.from
  }

  ghost predicate OwnWallets(w: World) {
    forall id :: id in w.store.requests ==> OwnWallet(w.store.seqnos.allocations, w.store.requests[id])
  }

  /** No request and no allocation is added, and none is renamed. */
  ghost predicate Quiet(w: World, next: World) {
    && (forall id :: id in next.store.requests ==>
          && id in w.store.requests
          && var a, b := w.store.requests[id], next.store.requests[id];
             a.payout == b.payout && a.from == b.from && a.seqno == b.seqno)
    && (forall id :: id in w.store.requests ==> id in next.store.requests)
    && |next.store.seqnos.allocations| == |w.store.seqnos.allocations|
    && (forall k :: 0 <= k < |w.store.seqnos.allocations| ==>
          var a, b := w.store.seqnos.allocations[k], next.store.seqnos.allocations[k];
          a.payout == b.payout && a.address == b.address && a.seqno == b.seqno)
  }

  /** A new request is registered with the seqno its payout has, or now gets. */
  ghost predicate Registers(cfg: Config, w: World, q: SignRequest, next: World) {
    var (seqnos, seqno) := S.Allocate(w.store.seqnos, q.from, q.payout, cfg.initialSeqno);
    && q.id !in w.store.requests && q.id in next.store.requests
    && SignableError(cfg, q).None? && BuildError(cfg, q, seqno).None?
    && next.store.seqnos == seqnos
    && next.store.requests == w.store.requests[q.id := next.store.requests[q.id]]
    && var r := next.store.requests[q.id]; r.payout == q.payout && r.from == q.from && r.seqno == seqno
  }

  lemma StartShape(cfg: Config, w: World, q: SignRequest, token: nat, now: int, validUntil: int)
    ensures var next := Next(cfg, w, Start(q, token, now, validUntil)); Quiet(w, next) || Registers(cfg, w, q, next)
  {
    var next := Next(cfg, w, Start(q, token, now, validUntil));
    if token !in w.workers && SignableError(cfg, q).None? && q.id !in w.store.requests {
      var (seqnos, seqno) := S.Allocate(w.store.seqnos, q.from, q.payout, cfg.initialSeqno);
      if BuildError(cfg, q, seqno).None? {
        assert Registers(cfg, w, q, next);
      } else {
        assert next == w;
      }
    } else {
      assert next.store.seqnos == w.store.seqnos;
    }
  }

  lemma CompleteShape(w: World, id: string, token: nat, signed: Signed)
    ensures Quiet(w, w.(store := Complete(w.store, id, token, signed)))
    ensures Quiet(w, w.(store := Fail(w.store, id, token)))
  {
  }

  lemma ElsewhereShape(w: World, call: S.Call)
    requires S.Ordered(w.store.seqnos) && !call.DoAllocate?
    ensures Quiet(w, w.(store := w.store.(seqnos := S.Do(w.store.seqnos, call))))
  {
    S.CallGrows(w.store.seqnos, call);
  }

  lemma NextShape(cfg: Config, w: World, e: Event)
    requires Sound(cfg, w)
    ensures Quiet(w, Next(cfg, w, e)) || (e.Start? && Registers(cfg, w, e.request, Next(cfg, w, e)))
  {
    match e
    case Start(q, token, now, validUntil) => StartShape(cfg, w, q, token, now, validUntil);
    case CallKms(_) =>
    case Finish(token, signature) =>
      if token in w.workers {
        CompleteShape(w, w.workers[token].id, token, Signed(cfg.digest(w.workers[token].payload), signature));
      }
    case GiveUp(token) =>
      if token in w.workers { CompleteShape(w, w.workers[token].id, token, Signed("", "")); }
    case Elsewhere(call) => if !call.DoAllocate? { ElsewhereShape(w, call); }
  }

  lemma QuietKeepsOwn(w: World, next: World)
    requires OwnWallets(w) && Quiet(w, next)
    ensures OwnWallets(next)
  {
    forall id | id in next.store.requests ensures OwnWallet(next.store.seqnos.allocations, next.store.requests[id]) {
      OwnWalletStays(w.store.seqnos.allocations, next.store.seqnos.allocations, w.store.requests[id], next.store.requests[id]);
    }
  }

  lemma OwnWalletStays(rows: seq<S.Allocation>, more: seq<S.Allocation>, r: Record, r': Record)
    requires OwnWallet(rows, r) && r'.payout == r.payout && r'.from == r.from && r'.seqno == r.seqno
    requires |rows| <= |more|
    requires forall k :: 0 <= k < |rows| ==>
               more[k].payout == rows[k].payout && more[k].address == rows[k].address && more[k].seqno == rows[k].seqno
    ensures OwnWallet(more, r')
  {
    var k :| 0 <= k < |rows| && rows[k].payout == r.payout && rows[k].seqno == r.seqno && rows[k].address == r.from;
    assert more[k].payout == r'.payout;
  }

  /** It is enough that a seqno the payout already had was allocated on the wallet the request names. */
  lemma RegisterKeepsOwn(cfg: Config, w: World, q: SignRequest, next: World)
    requires OwnWallets(w) && Registers(cfg, w, q, next)
    requires forall k :: 0 <= k < |w.store.seqnos.allocations| && w.store.seqnos.allocations[k].payout == q.payout ==>
               w.store.seqnos.allocations[k].address == q.from
    ensures OwnWallets(next)
  {
    var rows, more := w.store.seqnos.allocations, next.store.seqnos.allocations;
    forall id | id in next.store.requests ensures OwnWallet(more, next.store.requests[id]) {
      if id != q.id {
        OwnWalletStays(rows, more, w.store.requests[id], next.store.requests[id]);
      } else {
        var k := S.FindAllocation(rows, q.payout);
        assert more[if k.Some? then k.value else |rows|].payout == q.payout;
      }
    }
  }

  lemma SeqnosIdentifyPayouts(t: S.Tables, a: Record, b: Record)
    requires S.Ordered(t) && OwnWallet(t.allocations, a) && OwnWallet(t.allocations, b) && a.from == b.from
    ensures a.seqno == b.seqno <==> a.payout == b.payout
  {
    var rows := t.allocations;
    var k :| 0 <= k < |rows| && rows[k].payout == a.payout && rows[k].seqno == a.seqno && rows[k].address == a.from;
    var l :| 0 <= l < |rows| && rows[l].payout == b.payout && rows[l].seqno == b.seqno && rows[l].address == b.from;
  }

  /** The payout for which the KMS made its i-th signature. */
  ghost function Payer(cfg: Config, es: seq<Event>, i: nat): nat
    requires Sensible(cfg) && i < |Run(cfg, es).kms|
  {
    RunSound(cfg, es);
    var w := Run(cfg, es);
    assert SignsRecord(cfg, w.store.requests, w.kms[i]);
    w.store.requests[w.kms[i].id].payout
  }

  /** Two payouts never have the KMS sign one seqno of one wallet, and one payout always signs the seqno it has. */
  ghost predicate SeqnoPerPayout(cfg: Config, es: seq<Event>)
    requires Sensible(cfg)
  {
    var kms := Run(cfg, es).kms;
    forall i: nat, j: nat :: i < |kms| && j < |kms| && kms[i].payload.from == kms[j].payload.from ==>
      (kms[i].payload.seqno == kms[j].payload.seqno <==> Payer(cfg, es, i) == Payer(cfg, es, j))
  }

  lemma OwnWalletsSeparate(cfg: Config, es: seq<Event>)
    requires Sensible(cfg) && OwnWallets(Run(cfg, es))
    ensures SeqnoPerPayout(cfg, es)
  {
    RunSound(cfg, es);
    var w := Run(cfg, es);
    forall i: nat, j: nat | i < |w.kms| && j < |w.kms| && w.kms[i].payload.from == w.kms[j].payload.from
      ensures w.kms[i].payload.seqno == w.kms[j].payload.seqno <==> Payer(cfg, es, i) == Payer(cfg, es, j)
    {
      assert SignsRecord(cfg, w.store.requests, w.kms[i]) && SignsRecord(cfg, w.store.requests, w.kms[j]);
      SeqnosIdentifyPayouts(w.store.seqnos, w.store.requests[w.kms[i].id], w.store.requests[w.kms[j].id]);
    }
  }

  // ---------------------------------------------------------------------------
  // Request ids derived from the payout
  // ---------------------------------------------------------------------------

  /** Every request carries the id its payout determines. */
  ghost predicate IdsFollow(idOf: nat -> string, es: seq<Event>) {
    forall i :: 0 <= i < |es| && es[i].Start? ==> es[i].request.id == idOf(es[i].request.payout)
  }

  /** A payout has a seqno only once its request is on record. */
  ghost predicate RowsRequested(idOf: nat -> string, w: World) {
    forall k :: 0 <= k < |w.store.seqnos.allocations| ==> idOf(w.store.seqnos.allocations[k].payout) in w.store.requests
  }

  ghost predicate RecordsNamed(idOf: nat -> string, w: World) {
    forall id :: id in w.store.requests ==> id == idOf(w.store.requests[id].payout)
  }

  lemma {:induction false} FollowedRunOwns(cfg: Config, idOf: nat -> string, es: seq<Event>)
    requires Sensible(cfg) && IdsFollow(idOf, es)
    ensures OwnWallets(Run(cfg, es)) && RowsRequested(idOf, Run(cfg, es)) && RecordsNamed(idOf, Run(cfg, es))
  {
    if es != [] {
      var init, e := es[..|es| - 1], es[|es| - 1];
      var w, next := Run(cfg, init), Run(cfg, es);
      FollowedRunOwns(cfg, idOf, init);
      RunSound(cfg, init);
      NextShape(cfg, w, e);
      if Quiet(w, next) {
        QuietKeepsOwn(w, next);
      } else {
        RegisterKeepsOwn(cfg, w, e.request, next);
      }
    }
  }

  /**
   If request ids are derived from the payout, then whatever wallets the requests name and whether or not a payout
   wallet is configured, every record names the wallet of its payout's seqno, and the KMS never signs one seqno of one
   wallet for two payouts.
   */
  lemma PayoutsNeverShareSeqno(cfg: Config, idOf: nat -> string, es: seq<Event>)
    requires Sensible(cfg) && IdsFollow(idOf, es)
    ensures SeqnoPerPayout(cfg, es) && OwnWallets(Run(cfg, es))
    ensures forall id :: id in Run(cfg, es).store.requests ==> id == idOf(Run(cfg, es).store.requests[id].payout)
  {
    FollowedRunOwns(cfg, idOf, es);
    OwnWalletsSeparate(cfg, es);
  }

  // ---------------------------------------------------------------------------
  // Arbitrary request ids
  // ---------------------------------------------------------------------------

  /** No other wallet gets past the checks. */
  ghost predicate OnlyWallet(cfg: Config, wallet: string) {
    forall q, seqno :: SignableError(cfg, q).None? && BuildError(cfg, q, seqno).None? ==> q.from == wallet
  }

  ghost predicate AllOn(wallet: string, w: World) {
    && (forall k :: 0 <= k < |w.store.seqnos.allocations| ==> w.store.seqnos.allocations[k].address == wallet)
    && (forall id :: id in w.store.requests ==> w.store.requests[id].from == wallet)
  }

  lemma RegisterOnWallet(cfg: Config, wallet: string, w: World, q: SignRequest, next: World)
    requires OnlyWallet(cfg, wallet) && AllOn(wallet, w) && Registers(cfg, w, q, next)
    ensures AllOn(wallet, next) && q.from == wallet
  {
  }

  lemma OnlyWalletStep(cfg: Config, wallet: string, w: World, e: Event, next: World)
    requires OnlyWallet(cfg, wallet) && AllOn(wallet, w) && OwnWallets(w)
    requires Quiet(w, next) || (e.Start? && Registers(cfg, w, e.request, next))
    ensures OwnWallets(next) && AllOn(wallet, next)
  {
    if Quiet(w, next) {
      QuietKeepsOwn(w, next);
    } else {
      RegisterOnWallet(cfg, wallet, w, e.request, next);
      RegisterKeepsOwn(cfg, w, e.request, next);
    }
  }

  lemma {:induction false} OnlyWalletOwns(cfg: Config, wallet: string, es: seq<Event>)
    requires Sensible(cfg) && OnlyWallet(cfg, wallet)
    ensures OwnWallets(Run(cfg, es)) && AllOn(wallet, Run(cfg, es))
  {
    if es != [] {
      var init, e := es[..|es| - 1], es[|es| - 1];
      var w, next := Run(cfg, init), Run(cfg, es);
      OnlyWalletOwns(cfg, wallet, init);
      RunSound(cfg, init);
      NextShape(cfg, w, e);
      OnlyWalletStep(cfg, wallet, w, e, next);
    }
  }

  /** A configured payout wallet makes every record name it, and it is its payout's own. */
  lemma ConfiguredWalletIsOwn(cfg: Config, es: seq<Event>, id: string)
    requires Sensible(cfg) && cfg.payoutWallet != "" && id in Run(cfg, es).store.requests
    ensures OwnWallet(Run(cfg, es).store.seqnos.allocations, Run(cfg, es).store.requests[id])
    ensures Run(cfg, es).store.requests[id].from == cfg.payoutWallet
  {
    OnlyWalletOwns(cfg, cfg.payoutWallet, es);
  }

  /** Transfers from both wallets to the destination pass every check. */
  predicate TwoWallets(cfg: Config, a: string, b: string, destination: string) {
    a != b && cfg.parses(a) && cfg.parses(b) && cfg.parses(destination) && MoneyMath.Trim(destination) != ""
  }

  lemma FewWallets(cfg: Config) returns (wallet: string)
    requires cfg.payoutWallet != "" || !exists a, b, d :: TwoWallets(cfg, a, b, d)
    ensures OnlyWallet(cfg, wallet)
  {
    if cfg.payoutWallet != "" {
      wallet := cfg.payoutWallet;
    } else if q, seqno :| SignableError(cfg, q).None? && BuildError(cfg, q, seqno).None? {
      wallet := q.from;
      forall q', seqno' | SignableError(cfg, q').None? && BuildError(cfg, q', seqno').None? ensures q'.from == wallet {
        assert !TwoWallets(cfg, q.from, q'.from, q.destination);
      }
    } else {
      wallet := "";
    }
  }

  /** A fresh request is granted the payload of its payout's seqno. */
  lemma FreshStart(cfg: Config, w: World, q: SignRequest, token: nat, now: int, validUntil: int)
    requires token !in w.workers && q.id !in w.store.requests && SignableError(cfg, q).None?
    requires BuildError(cfg, q, S.Allocate(w.store.seqnos, q.from, q.payout, cfg.initialSeqno).1).None?
    ensures var next := Next(cfg, w, Start(q, token, now, validUntil));
            var (seqnos, seqno) := S.Allocate(w.store.seqnos, q.from, q.payout, cfg.initialSeqno);
            && next.store.seqnos == seqnos && next.kms == w.kms
            && next.workers == w.workers[token := Work(q.id, PayloadOf(cfg, q, seqno, validUntil))]
            && q.id in next.store.requests && next.store.requests[q.id].payout == q.payout
            && next.store.requests == w.store.requests[q.id := next.store.requests[q.id]]
  {
  }

  /** Payout 1 is requested from wallet `b`, then from wallet `a` under another id, where it keeps the seqno it has. */
  function SharingRun(cfg: Config, a: string, b: string, destination: string): seq<Event> {
    var q := SignRequest("x", 0, cfg.asset, cfg.network, a, destination, "1");
    [Elsewhere(S.DoSyncOnChain(a, 0)), Elsewhere(S.DoSyncOnChain(b, 0)),
     Start(q, 0, 0, 600), Start(q.(id := "y", payout := 1, from := b), 1, 0, 600),
     Start(q.(id := "z", payout := 1), 2, 0, 600), CallKms(0), CallKms(2)]
  }

  lemma Synced(cfg: Config, a: string, b: string, destination: string)
    requires a != b
    ensures var es := SharingRun(cfg, a, b, destination);
            Run(cfg, es[..2])
            == NoWorld.(store := Store(S.Tables(map[a := S.Sequence(0, 0, -1), b := S.Sequence(0, 0, -1)], []), map[]))
  {
    var es := SharingRun(cfg, a, b, destination);
    RunSteps(cfg, es);
    assert Run(cfg, es[..1]).store.seqnos == S.Tables(map[a := S.Sequence(0, 0, -1)], []);
  }

  lemma SharingStarts(cfg: Config, a: string, b: string, destination: string, w: World)
    requires cfg.payoutWallet == "" && TwoWallets(cfg, a, b, destination)
    requires w.store.seqnos == S.Tables(map[a := S.Sequence(0, 0, -1), b := S.Sequence(0, 0, -1)], [])
    requires w.store.requests == map[] && w.workers == map[]
    ensures var es := SharingRun(cfg, a, b, destination);
            var after := Next(cfg, Next(cfg, Next(cfg, w, es[2]), es[3]), es[4]);
            && after.kms == w.kms && 0 in after.workers && 2 in after.workers
            && after.workers[0].id == "x" && after.workers[2].id == "z"
            && after.workers[0].payload.from == after.workers[2].payload.from == a
            && after.workers[0].payload.seqno == after.workers[2].payload.seqno == 0
            && "x" in after.store.requests && after.store.requests["x"].payout == 0
            && "z" in after.store.requests && after.store.requests["z"].payout == 1
  {
    var es := SharingRun(cfg, a, b, destination);
    OneNanoGram();
    FreshStart(cfg, w, es[2].request, 0, 0, 600);
    var w3 := Next(cfg, w, es[2]);
    assert w3.store.seqnos.allocations == [S.Allocation(0, a, 0, S.RESERVED)];
    FreshStart(cfg, w3, es[3].request, 1, 0, 600);
    var w4 := Next(cfg, w3, es[3]);
    assert w4.store.seqnos.allocations == [S.Allocation(0, a, 0, S.RESERVED), S.Allocation(1, b, 0, S.RESERVED)];
    FreshStart(cfg, w4, es[4].request, 2, 0, 600);
  }

  lemma OneNanoGram()
    ensures Decimal.AllDigits("1") && Decimal.FromDecimal("1") == 1
  {
    assert "1"[..0] == [];
  }

  lemma RunSteps(cfg: Config, es: seq<Event>)
    ensures es[..0] == [] && es[..|es|] == es
    ensures forall i :: 0 <= i < |es| ==> Run(cfg, es[..i + 1]) == Next(cfg, Run(cfg, es[..i]), es[i])
  {
    forall i | 0 <= i < |es| ensures Run(cfg, es[..i + 1]) == Next(cfg, Run(cfg, es[..i]), es[i]) {
      assert es[..i + 1][..i] == es[..i];
    }
  }

  /** So with no wallet configured, any two wallets that can pay one destination can sign one seqno for two payouts. */
  lemma SharingRunShares(cfg: Config, a: string, b: string, destination: string)
    requires Sensible(cfg) && cfg.payoutWallet == "" && TwoWallets(cfg, a, b, destination)
    ensures !SeqnoPerPayout(cfg, SharingRun(cfg, a, b, destination))
  {
    var es := SharingRun(cfg, a, b, destination);
    RunSteps(cfg, es);
    Synced(cfg, a, b, destination);
    SharingStarts(cfg, a, b, destination, Run(cfg, es[..2]));
    assert Run(cfg, es[..3]) == Next(cfg, Run(cfg, es[..2]), es[2]);
    assert Run(cfg, es[..4]) == Next(cfg, Run(cfg, es[..3]), es[3]);
    assert Run(cfg, es[..5]) == Next(cfg, Run(cfg, es[..4]), es[4]);
    var w := Run(cfg, es);
    assert w == Next(cfg, Next(cfg, Run(cfg, es[..5]), es[5]), es[6]);
    assert |w.kms| == 2 && w.kms[0].payload.seqno == w.kms[1].payload.seqno;
    assert Payer(cfg, es, 0) == 0 && Payer(cfg, es, 1) == 1;
  }

  /**
   With arbitrary request ids, payouts never share a seqno of a wallet in any run exactly when a payout wallet is
   configured or no two wallets can pay one destination.
   */
  lemma SeqnosAreSafeExactlyWhenOneWallet(cfg: Config)
    requires Sensible(cfg)
    ensures (forall es :: SeqnoPerPayout(cfg, es))
            <==> cfg.payoutWallet != "" || !exists a, b, d :: TwoWallets(cfg, a, b, d)
  {
    if cfg.payoutWallet != "" || !exists a, b, d :: TwoWallets(cfg, a, b, d) {
      var wallet := FewWallets(cfg);
      forall es ensures SeqnoPerPayout(cfg, es) {
        OnlyWalletOwns(cfg, wallet, es);
        OwnWalletsSeparate(cfg, es);
      }
    } else {
      var a, b, d :| TwoWallets(cfg, a, b, d);
      SharingRunShares(cfg, a, b, d);
    }
  }

  /** A completed record is never written again, by a stale worker or by a retry, and its result signs its own digest. */
  lemma CompletedIsFrozen(cfg: Config, es: seq<Event>, i: nat, id: string)
    requires Sensible(cfg) && i <= |es| && id in Run(cfg, es[..i]).store.requests
    requires Run(cfg, es[..i]).store.requests[id].status == COMPLETED
    ensures id in Run(cfg, es).store.requests && Run(cfg, es).store.requests[id] == Run(cfg, es[..i]).store.requests[id]
    ensures var r := Run(cfg, es).store.requests[id]; r.reference.Some? && r.reference.value.digest == r.unsignedHash
  {
    RunSound(cfg, es[..i]);
    assert RecordOk(cfg, Run(cfg, es[..i]).store.seqnos, Run(cfg, es[..i]).store.requests[id]);
    RunKeepsRecords(cfg, es, i);
  }
}
