/** The manager itself: two tables as fields, updated step by step, each method proved equal to its meaning. */
module SeqnoManager {
  import opened Basics
  import T = SeqnoTables
  import opened SeqnoTables

  class TonSeqnoManager {
    var sequences: map<string, Sequence>
    var allocations: seq<Allocation>

    ghost function State(): Tables
      reads this
    {
      Tables(sequences, allocations)
    }

    constructor ()
      ensures State() == NoTables
    {
      sequences, allocations := map[], [];
    }

    method Allocate(address: string, payout: nat, initial: int := 0) returns (seqno: int)
      modifies this
      ensures (State(), seqno) == T.Allocate(old(State()), address, payout, initial)
    {
      var existing := FindAllocation(allocations, payout);
      if existing.Some? { return allocations[existing.value].seqno; }
      if address !in sequences {
        sequences := sequences[address := Sequence(initial, initial, initial - 1)];
      }
      seqno := sequences[address].next;
      sequences := sequences[address := sequences[address].(next := seqno + 1)];
      assert sequences == old(sequences)[address := sequences[address]];
      allocations := allocations + [Allocation(payout, address, seqno, RESERVED)];
    }

    method CanBroadcast(address: string, payout: nat) returns (gate: Gate)
      ensures gate == T.CanBroadcast(State(), address, payout)
    {
      var k := FindAllocation(allocations, payout);
      if k.None? { return NoAllocation; }
      var mine := allocations[k.value];
      if mine.status == CONFIRMED { return AlreadyConfirmed; }
      if address !in sequences { return SequenceStateMismatch; }
      var row := sequences[address];
      if row.current != mine.seqno || row.confirmed != mine.seqno - 1 { return SequenceStateMismatch; }
      var last := LastPredecessor(allocations, address, mine.seqno);
      if last.Some? && last.value != mine.seqno - 1 { return MissingPredecessorGap; }
      for i := 0 to |allocations|
        invariant forall j :: 0 <= j < i && Predecessor(allocations[j], address, mine.seqno) ==> allocations[j].status == CONFIRMED
      {
        if Predecessor(allocations[i], address, mine.seqno) && allocations[i].status != CONFIRMED {
          return Blocker(allocations[i]);
        }
      }
      var inFlight := FirstInFlight(allocations, address, mine.seqno);
      return if inFlight.Some? then PredecessorInFlight(allocations[inFlight.value].seqno) else Allowed(mine.seqno);
    }

    method MarkBroadcasted(payout: nat)
      modifies this
      ensures State() == T.MarkBroadcasted(old(State()), payout)
    {
      allocations := WithStatus(allocations, payout, BROADCASTED);
    }

    method Confirm(address: string, payout: nat, supplied: int) returns (error: Option<ConfirmError>)
      modifies this
      ensures (State(), error) == T.Confirm(old(State()), address, payout, supplied)
    {
      var k := FindAllocation(allocations, payout);
      if k.None? { return Some(NoSeqnoAllocation); }
      if allocations[k.value].address != address { return Some(TreasuryAddressMismatch); }
      if allocations[k.value].seqno != supplied { return Some(SeqnoMismatch); }
      allocations := WithStatus(allocations, payout, CONFIRMED);
      if address in sequences {
        var row := sequences[address];
        sequences := sequences[address := row.(confirmed := Max(row.confirmed, supplied), current := Max(row.current, supplied + 1))];
      }
      return None;
    }

    method Fail(payout: nat)
      modifies this
      ensures State() == T.Fail(old(State()), payout)
    {
      allocations := WithStatus(allocations, payout, FAILED);
    }

    method SyncOnChain(address: string, onChain: int)
      modifies this
      ensures State() == T.SyncOnChain(old(State()), address, onChain)
    {
      if address in sequences {
        var row := sequences[address];
        sequences := sequences[address := row.(current := Max(row.current, onChain), next := Max(row.next, onChain))];
      } else {
        sequences := sequences[address := Sequence(onChain, onChain, -1)];
      }
    }

    /** Judge each stuck row on its evidence, adopt the chain's seqno, expire what was reserved at or above it. */
    method ReconcileSequenceGap(address: string, actual: int, expected: Snapshots, find: Finder)
      modifies this
      ensures State() == Reconcile(old(State()), address, actual, expected, find)
    {
      var rows := allocations;
      for i := 0 to |rows|
        invariant |allocations| == |rows|
        invariant forall j :: 0 <= j < |rows| ==>
          allocations[j] == if j < i then Judged(rows[j], address, actual, expected, find) else rows[j]
        invariant sequences == if address in old(sequences)
          then old(sequences)[address := old(sequences[address]).(confirmed :=
                 ResolvedConfirmed(rows[..i], old(sequences[address]).confirmed, address, actual, expected, find))]
          else old(sequences)
      {
        assert rows[..i + 1][..i] == rows[..i];
        var row := rows[i];
        if Stuck(row, address, actual) && find(row.payout).Some? {
          if ExactMatch(find(row.payout).value, address, row, expected(row.payout)) {
            allocations := allocations[i := row.(status := CONFIRMED)];
            if address in sequences {
              var s := sequences[address];
              sequences := sequences[address := s.(confirmed := Max(s.confirmed, row.seqno))];
            }
          } else {
            allocations := allocations[i := row.(status := FAILED)];
          }
        }
      }
      assert rows[..|rows|] == rows;
      assert allocations == JudgedRows(rows, address, actual, expected, find);
      if address in sequences {
        var s := sequences[address];
        sequences := sequences[address := s.(current := actual, next := Max(s.next, actual))];
      }
      allocations := ExpireRows(allocations, address, actual);
    }
  }
}
