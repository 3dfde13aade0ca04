/** The adapter object itself. */
module InMemoryTon {
  import opened Basics
  import opened Protocol
  import A = TonAdapter
  import opened TonAdapter

  class InMemoryTonAdapter {
    var sent: map<string, Record>
    var nextOutcome: SendOutcome
    const autoConfirm: bool
    var networkFee: int

    ghost function State(): Adapter
      reads this
    {
      Adapter(sent, nextOutcome, autoConfirm, networkFee)
    }

    constructor (confirmAtOnce: bool := true)
      ensures State() == Adapter(map[], ACCEPTED, confirmAtOnce, 1_000_000)
    {
      sent, nextOutcome, autoConfirm, networkFee := map[], ACCEPTED, confirmAtOnce, 1_000_000;
    }

    method SetNextOutcome(outcome: SendOutcome)
      modifies this`nextOutcome
      ensures State() == old(State()).(nextOutcome := outcome)
    {
      nextOutcome := outcome;
    }

    method Send(key: string, to: string, amount: int) returns (answer: Answer)
      modifies this
      ensures (State(), answer) == A.Send(old(State()), key, to, amount)
    {
      if key in sent { return Answer(ACCEPTED, Some(sent[key].txHash)); }
      var outcome := nextOutcome;
      nextOutcome := ACCEPTED;
      if outcome == REJECTED { return Answer(REJECTED, None); }
      var txHash := TxHashOf(key);
      sent := sent[key := Record(txHash, to, amount, autoConfirm, networkFee)];
      if outcome == INDETERMINATE { return Answer(INDETERMINATE, None); }
      return Answer(ACCEPTED, Some(txHash));
    }

    method GetTransferStatus(key: string) returns (status: TransferStatus)
      ensures status == Status(State(), key)
    {
      if key !in sent { return NotFound; }
      var record := sent[key];
      if !record.confirmed { return Pending(record.txHash); }
      return Confirmed(record.txHash, record.amount, record.to, record.networkFee, 10);
    }

    method ConfirmAll()
      modifies this`sent
      ensures State() == A.ConfirmAll(old(State()))
    {
      var pending := sent.Keys;
      while pending != {}
        invariant pending <= sent.Keys == old(sent).Keys
        invariant forall k :: k in sent ==> sent[k] == if k in pending then old(sent)[k] else old(sent)[k].(confirmed := true)
        decreases |pending|
      {
        var key :| key in pending;
        pending := pending - {key};
        sent := sent[key := sent[key].(confirmed := true)];
      }
    }
  }
}
