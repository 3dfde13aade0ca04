/** The signer: claims a request inside one transaction, calls the KMS with none open, then records under its claim token. */
module KmsSigner {
  import opened Basics
  import R = SigningRequests
  import opened SigningRequests
  import opened SeqnoManager

  class AwsKmsEd25519Signer {
    const cfg: Config
    const seqnos: TonSeqnoManager
    var requests: map<string, Record>

    ghost function State(): Store
      reads this, seqnos
    {
      Store(seqnos.State(), requests)
    }

    constructor (config: Config, manager: TonSeqnoManager)
      ensures cfg == config && seqnos == manager && requests == map[]
    {
      cfg, seqnos, requests := config, manager, map[];
    }

    method Claim(q: SignRequest, token: nat, now: int, validUntil: int) returns (r: Result<Claimed, SignError>)
      modifies this, seqnos
      ensures ClaimStep(State(), r) == R.Claim(cfg, old(State()), q, token, now, validUntil)
    {
      var refused := SignableError(cfg, q);
      if refused.Some? { return Err(refused.value); }
      if q.id in requests {
        var record := requests[q.id];
        var bad := BuildError(cfg, q, record.seqno);
        if bad.Some? { return Err(bad.value); }
        var payload := PayloadOf(cfg, q, record.seqno, record.validUntil);
        if Mismatch(cfg, record, q, payload) { return Err(PayloadMismatch); }
        if record.status == COMPLETED && record.reference.Some? { return Ok(AlreadyCompleted(record.reference.value)); }
        if record.status == CLAIMED && record.leaseUntil > now { return Err(InFlight); }
        requests := requests[q.id := record.(status := CLAIMED, token := token, leaseUntil := now + cfg.leaseTime)];
        return Ok(Granted(payload));
      }
      r := Register(q, token, now, validUntil);
    }

    /** Allocate a seqno and store the intent; undo the allocation when no payload can be built from it. */
    method Register(q: SignRequest, token: nat, now: int, validUntil: int) returns (r: Result<Claimed, SignError>)
      modifies this, seqnos
      ensures ClaimStep(State(), r) == ClaimFresh(cfg, old(State()), q, token, now, validUntil)
    {
      var savedSequences, savedAllocations := seqnos.sequences, seqnos.allocations;
      var seqno := seqnos.Allocate(q.from, q.payout, cfg.initialSeqno);
      var bad := BuildError(cfg, q, seqno);
      if bad.Some? {
        seqnos.sequences, seqnos.allocations := savedSequences, savedAllocations;
        return Err(bad.value);
      }
      var payload := PayloadOf(cfg, q, seqno, validUntil);
      requests := requests[q.id := Record(q.payout, q.from, q.destination, q.amount, seqno, validUntil, cfg.digest(payload),
        cfg.intentHash(IntentOf(cfg, q, payload)), CLAIMED, None, token, now + cfg.leaseTime)];
      return Ok(Granted(payload));
    }

    method Complete(id: string, token: nat, signed: Signed)
      modifies this`requests
      ensures State() == R.Complete(old(State()), id, token, signed)
    {
      if id in requests && requests[id].token == token && requests[id].status == CLAIMED {
        requests := requests[id := requests[id].(status := COMPLETED, reference := Some(signed))];
      }
    }

    method Fail(id: string, token: nat)
      modifies this`requests
      ensures State() == R.Fail(old(State()), id, token)
    {
      if id in requests && requests[id].token == token && requests[id].status == CLAIMED {
        requests := requests[id := requests[id].(status := FAILED_RETRYABLE)];
      }
    }

    /** One undisturbed attempt; `answer` is what the KMS returns, None when it fails. */
    method Sign(q: SignRequest, token: nat, now: int, validUntil: int, answer: Option<string>) returns (r: Result<Signed, SignError>)
      modifies this, seqnos
      ensures var step := R.Claim(cfg, old(State()), q, token, now, validUntil);
              match step.result
              case Err(e) => r == Err(e) && State() == step.store
              case Ok(AlreadyCompleted(done)) => r == Ok(done) && State() == step.store
              case Ok(Granted(p)) =>
                match answer
                case Some(signature) =>
                  r == Ok(Signed(cfg.digest(p), signature))
                  && State() == R.Complete(step.store, q.id, token, Signed(cfg.digest(p), signature))
                case None => r == Err(NoSignature) && State() == R.Fail(step.store, q.id, token)
    {
      var claim := Claim(q, token, now, validUntil);
      if claim.Err? { return Err(claim.error); }
      if claim.value.AlreadyCompleted? { return Ok(claim.value.result); }
      var digest := cfg.digest(claim.value.payload);
      if answer.None? {
        Fail(q.id, token);
        return Err(NoSignature);
      }
      Complete(q.id, token, Signed(digest, answer.value));
      return Ok(Signed(digest, answer.value));
    }
  }
}
