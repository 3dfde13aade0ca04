/** What each call of the seqno manager answers and stores after any run of calls, said of the rows themselves. */
module SeqnoAnswers {
  import opened Basics
  import opened SeqnoTables

  // ---------------------------------------------------------------------------
  // The gate
  // ---------------------------------------------------------------------------

  /** Row `k` is the payout's own. */
  predicate Own(t: Tables, k: int, payout: nat) { 0 <= k < |t.allocations| && t.allocations[k].payout == payout }

  /** Row `k` is an allocation of the wallet below `seqno`. */
  predicate Below(t: Tables, k: int, address: string, seqno: int) {
    0 <= k < |t.allocations| && t.allocations[k].address == address && t.allocations[k].seqno < seqno
  }

  /** The wallet has sent and confirmed exactly the numbers below `seqno`, as far as its counters say. */
  predicate Expects(t: Tables, address: string, seqno: int) {
    address in t.sequences && t.sequences[address].current == seqno && t.sequences[address].confirmed == seqno - 1
  }

  /** Allocations below `seqno` exist, and the one just below it is not among them. */
  ghost predicate Gap(t: Tables, address: string, seqno: int) {
    (exists k :: Below(t, k, address, seqno)) && forall k :: Below(t, k, address, seqno) ==> t.allocations[k].seqno != seqno - 1
  }

  /** Row `k` is the wallet's allocation with the smallest seqno that is not CONFIRMED, and it is below `seqno`. */
  ghost predicate Holds(t: Tables, k: int, address: string, seqno: int) {
    && Below(t, k, address, seqno) && t.allocations[k].status != CONFIRMED
    && forall j :: Below(t, j, address, t.allocations[k].seqno) ==> t.allocations[j].status == CONFIRMED
  }

  ghost predicate OtherInFlight(t: Tables, k: int, address: string, seqno: int) {
    && 0 <= k < |t.allocations| && t.allocations[k].address == address
    && t.allocations[k].seqno != seqno && t.allocations[k].status == BROADCASTED
  }

  function Reason(a: Allocation): Gate {
    match a.status
    case FAILED => PredecessorFailed(a.seqno)
    case BROADCASTED => PredecessorInFlight(a.seqno)
    case _ => PredecessorUnconfirmed(a.seqno)
  }

  /** What the gate of `address` says about an allocated payout: the first reason that applies, if any does. */
  ghost predicate Answers(t: Tables, address: string, mine: Allocation, g: Gate) {
    if mine.status == CONFIRMED then g == AlreadyConfirmed
    else if !Expects(t, address, mine.seqno) then g == SequenceStateMismatch
    else if Gap(t, address, mine.seqno) then g == MissingPredecessorGap
    else if exists k :: Below(t, k, address, mine.seqno) && t.allocations[k].status != CONFIRMED then
      exists k :: Holds(t, k, address, mine.seqno) && g == Reason(t.allocations[k])
    else if exists k :: OtherInFlight(t, k, address, mine.seqno) then
      exists k :: OtherInFlight(t, k, address, mine.seqno) && g == PredecessorInFlight(t.allocations[k].seqno)
    else g == Allowed(mine.seqno)
  }

  lemma GapIsFound(t: Tables, address: string, seqno: int)
    ensures var last := LastPredecessor(t.allocations, address, seqno);
            last.Some? && last.value != seqno - 1 <==> Gap(t, address, seqno)
  {
    var last := LastPredecessor(t.allocations, address, seqno);
    if last.Some? {
      var i :| 0 <= i < |t.allocations| && t.allocations[i].address == address && t.allocations[i].seqno == last.value;
      assert Below(t, i, address, seqno);
    }
    forall k | Below(t, k, address, seqno) ensures Predecessor(t.allocations[k], address, seqno) {
    }
  }

  lemma FirstHolds(t: Tables, address: string, seqno: int)
    requires Ordered(t)
    ensures var first := FirstUnconfirmed(t.allocations, address, seqno);
            match first
            case Some(k) => Holds(t, k, address, seqno)
            case None => forall k :: Below(t, k, address, seqno) ==> t.allocations[k].status == CONFIRMED
  {
    var rows := t.allocations;
    var first := FirstUnconfirmed(rows, address, seqno);
    if first.Some? {
      forall j | Below(t, j, address, rows[first.value].seqno) ensures rows[j].status == CONFIRMED {
        assert j < first.value;
        assert Predecessor(rows[j], address, seqno);
      }
    } else {
      forall j | Below(t, j, address, seqno) ensures rows[j].status == CONFIRMED {
        assert Predecessor(rows[j], address, seqno);
      }
    }
  }

  lemma InFlightIsFound(t: Tables, address: string, seqno: int)
    ensures match FirstInFlight(t.allocations, address, seqno)
            case Some(k) => OtherInFlight(t, k, address, seqno)
            case None => forall k :: !OtherInFlight(t, k, address, seqno)
  {
    forall j | OtherInFlight(t, j, address, seqno) ensures InFlight(t.allocations[j], address, seqno) {
    }
  }

  lemma GateOfRow(t: Tables, address: string, payout: nat, k: int)
    requires Ordered(t) && Own(t, k, payout)
    ensures Answers(t, address, t.allocations[k], CanBroadcast(t, address, payout))
  {
    var mine := t.allocations[k];
    assert FindAllocation(t.allocations, payout) == Some(k);
    if mine.status != CONFIRMED && Expects(t, address, mine.seqno) {
      PredecessorsAnswer(t, address, mine);
    }
  }

  lemma PredecessorsAnswer(t: Tables, address: string, mine: Allocation)
    requires Ordered(t) && mine.status != CONFIRMED && Expects(t, address, mine.seqno)
    ensures Answers(t, address, mine, Predecessors(t.allocations, address, mine.seqno))
  {
    GapIsFound(t, address, mine.seqno);
    FirstHolds(t, address, mine.seqno);
    InFlightIsFound(t, address, mine.seqno);
  }

  /** A closed gate names the first reason that applies; of several unconfirmed predecessors, the smallest. */
  lemma GateAnswers(cs: seq<Call>, address: string, payout: nat, k: int)
    ensures var t := RunCalls(NoTables, cs);
            && ((forall j :: !Own(t, j, payout)) ==> CanBroadcast(t, address, payout) == NoAllocation)
            && (Own(t, k, payout) ==> Answers(t, address, t.allocations[k], CanBroadcast(t, address, payout)))
  {
    var t := RunCalls(NoTables, cs);
    RunOrdered(cs);
    var found := FindAllocation(t.allocations, payout);
    if found.Some? {
      assert Own(t, found.value, payout);
    }
    if Own(t, k, payout) {
      GateOfRow(t, address, payout, k);
    }
  }

  /** It is this allocation's turn on the wallet. */
  ghost predicate InTurn(t: Tables, address: string, mine: Allocation) {
    && mine.status != CONFIRMED && Expects(t, address, mine.seqno) && !Gap(t, address, mine.seqno)
    && (forall k :: Below(t, k, address, mine.seqno) ==> t.allocations[k].status == CONFIRMED)
    && (forall k :: !OtherInFlight(t, k, address, mine.seqno))
  }

  lemma AllowedInTurn(t: Tables, address: string, mine: Allocation, g: Gate, seqno: int)
    requires Answers(t, address, mine, g)
    ensures g == Allowed(seqno) <==> mine.seqno == seqno && InTurn(t, address, mine)
  {
  }

  /** The gate opens for exactly the payout whose turn it is. */
  lemma OpensExactlyInTurn(cs: seq<Call>, address: string, payout: nat, seqno: int)
    ensures var t := RunCalls(NoTables, cs);
            CanBroadcast(t, address, payout) == Allowed(seqno) <==>
              exists k :: Own(t, k, payout) && t.allocations[k].seqno == seqno && InTurn(t, address, t.allocations[k])
  {
    RunOrdered(cs);
    OpensInTurn(RunCalls(NoTables, cs), address, payout, seqno);
  }

  lemma OpensInTurn(t: Tables, address: string, payout: nat, seqno: int)
    requires Ordered(t)
    ensures CanBroadcast(t, address, payout) == Allowed(seqno) <==>
              exists k :: Own(t, k, payout) && t.allocations[k].seqno == seqno && InTurn(t, address, t.allocations[k])
  {
    var found := FindAllocation(t.allocations, payout);
    if found.Some? {
      assert Own(t, found.value, payout);
      GateOfRow(t, address, payout, found.value);
      AllowedInTurn(t, address, t.allocations[found.value], CanBroadcast(t, address, payout), seqno);
    }
  }

  // ---------------------------------------------------------------------------
  // The other calls
  // ---------------------------------------------------------------------------

  /** Every run leaves ordered tables, where a payout has at most one row. */
  lemma OwnIsFound(t: Tables, payout: nat, k: int)
    requires Ordered(t)
    ensures Own(t, k, payout) ==> FindAllocation(t.allocations, payout) == Some(k)
    ensures (forall j :: !Own(t, j, payout)) ==> FindAllocation(t.allocations, payout) == None
  {
    var found := FindAllocation(t.allocations, payout);
    if found.Some? {
      assert Own(t, found.value, payout);
    }
  }

  /** A payout keeps its seqno for good; a new one gets the wallet's next number, the first wallet row starts at `initial`. */
  lemma AllocateAnswers(t: Tables, address: string, payout: nat, initial: int, k: int)
    requires Ordered(t)
    ensures var known := address in t.sequences;
            var seqno := if known then t.sequences[address].next else initial;
            var counters := if known then t.sequences[address].(next := seqno + 1) else Sequence(seqno, seqno + 1, seqno - 1);
            && (Own(t, k, payout) ==> Allocate(t, address, payout, initial) == (t, t.allocations[k].seqno))
            && ((forall j :: !Own(t, j, payout)) ==>
                  Allocate(t, address, payout, initial)
                    == (Tables(t.sequences[address := counters],
                               t.allocations + [Allocation(payout, address, seqno, AllocationStatus.RESERVED)]), seqno))
  {
    OwnIsFound(t, payout, k);
  }

  /** The wallet's counters after `seqno` was confirmed: `confirmed` covers it, `current` is past it, nothing falls. */
  ghost predicate ConfirmedUpTo(before: Sequence, after: Sequence, seqno: int) {
    && after.next == before.next
    && (after.confirmed == if seqno > before.confirmed then seqno else before.confirmed)
    && (after.current == if seqno >= before.current then seqno + 1 else before.current)
  }

  /** Only the payout's own wallet and seqno confirm it; a refusal changes nothing. */
  lemma ConfirmAnswers(t: Tables, address: string, payout: nat, supplied: int, k: int)
    requires Ordered(t)
    ensures var (after, error) := Confirm(t, address, payout, supplied);
            && (error.Some? ==> after == t)
            && ((forall j :: !Own(t, j, payout)) ==> error == Some(NoSeqnoAllocation))
            && (Own(t, k, payout) ==>
                  if t.allocations[k].address != address then error == Some(TreasuryAddressMismatch)
                  else if t.allocations[k].seqno != supplied then error == Some(SeqnoMismatch)
                  else
                    && error == None
                    && after.allocations == t.allocations[k := t.allocations[k].(status := AllocationStatus.CONFIRMED)]
                    && address in t.sequences && address in after.sequences
                    && after.sequences == t.sequences[address := after.sequences[address]]
                    && ConfirmedUpTo(t.sequences[address], after.sequences[address], supplied))
  {
    OwnIsFound(t, payout, k);
  }

  /** Marking changes the status of the payout's own row and of no other. */
  lemma MarkAnswers(t: Tables, payout: nat, k: int)
    requires Ordered(t)
    ensures && ((forall j :: !Own(t, j, payout)) ==> MarkBroadcasted(t, payout) == t && Fail(t, payout) == t)
            && (Own(t, k, payout) ==>
                  && MarkBroadcasted(t, payout)
                     == t.(allocations := t.allocations[k := t.allocations[k].(status := AllocationStatus.BROADCASTED)])
                  && Fail(t, payout) == t.(allocations := t.allocations[k := t.allocations[k].(status := AllocationStatus.FAILED)]))
  {
    if forall j :: !Own(t, j, payout) {
      forall i | 0 <= i < |t.allocations| ensures t.allocations[i].payout != payout {
        assert !Own(t, i, payout);
      }
      assert MarkBroadcasted(t, payout).allocations == t.allocations == Fail(t, payout).allocations;
    }
  }

  /** Syncing raises `current` and `next` to what the chain reports, never lowers them, and confirms nothing. */
  lemma SyncAnswers(t: Tables, address: string, onChain: int)
    ensures var after := SyncOnChain(t, address, onChain);
            && after.allocations == t.allocations && address in after.sequences
            && after.sequences == t.sequences[address := after.sequences[address]]
            && var s := after.sequences[address];
               if address !in t.sequences then s == Sequence(onChain, onChain, -1)
               else
                 && s.confirmed == t.sequences[address].confirmed
                 && (s.current == if onChain > t.sequences[address].current then onChain else t.sequences[address].current)
                 && (s.next == if onChain > t.sequences[address].next then onChain else t.sequences[address].next)
  {
  }

  /** The chain shows a successful transfer from the wallet under this seqno, to the payout's destination, of its amount. */
  predicate Proven(e: Option<Execution>, a: Allocation, expected: Snapshot) {
    e.Some? && e.value.success && e.value.source == a.address && e.value.seqno == a.seqno
    && e.value.destination == expected.destination && e.value.amount == expected.amount
  }

  /** What reconciliation makes of one row: the past is judged on evidence, unsent reservations of the future lapse. */
  function Reconciled(a: Allocation, address: string, actual: int, expected: Snapshots, find: Finder): AllocationStatus {
    if a.address != address then a.status
    else if a.seqno >= actual then (if a.status == AllocationStatus.RESERVED then AllocationStatus.EXPIRED else a.status)
    else match a.status
         case RESERVED | BROADCASTED =>
           if find(a.payout).None? then a.status
           else if Proven(find(a.payout), a, expected(a.payout)) then AllocationStatus.CONFIRMED
           else AllocationStatus.FAILED
         case _ => a.status
  }

  /** Row `k` was open and became CONFIRMED. */
  predicate NewlyConfirmed(t: Tables, k: int, address: string, actual: int, expected: Snapshots, find: Finder) {
    0 <= k < |t.allocations| && t.allocations[k].address == address && t.allocations[k].status != AllocationStatus.CONFIRMED
    && Reconciled(t.allocations[k], address, actual, expected, find) == AllocationStatus.CONFIRMED
  }

  lemma {:induction false} ResolvedIsLargest(rows: seq<Allocation>, start: int, address: string, actual: int,
                                             expected: Snapshots, find: Finder)
    ensures var c := ResolvedConfirmed(rows, start, address, actual, expected, find);
            && (forall i :: 0 <= i < |rows| && Resolves(rows[i], address, actual, expected, find) ==> rows[i].seqno <= c)
            && (c == start || exists i :: 0 <= i < |rows| && Resolves(rows[i], address, actual, expected, find) && rows[i].seqno == c)
  {
    if rows != [] {
      var init := rows[..|rows| - 1];
      ResolvedIsLargest(init, start, address, actual, expected, find);
      forall i | 0 <= i < |rows| && Resolves(rows[i], address, actual, expected, find)
        ensures rows[i].seqno <= ResolvedConfirmed(rows, start, address, actual, expected, find)
      {
        assert i < |init| ==> init[i] == rows[i];
      }
    }
  }

  /**
   Reconciliation adopts the chain's seqno, even a lower one; `confirmed` becomes the largest seqno confirmed before or now,
   and `next` never falls.
   */
  lemma ReconcileAnswers(t: Tables, address: string, actual: int, expected: Snapshots, find: Finder)
    ensures var after := Reconcile(t, address, actual, expected, find);
            && |after.allocations| == |t.allocations|
            && (forall k :: 0 <= k < |t.allocations| ==>
                  after.allocations[k] == t.allocations[k].(status := Reconciled(t.allocations[k], address, actual, expected, find)))
            && (address !in t.sequences ==> after.sequences == t.sequences)
            && (address in t.sequences ==>
                  && address in after.sequences && after.sequences == t.sequences[address := after.sequences[address]]
                  && var old', s := t.sequences[address], after.sequences[address];
                     && s.current == actual && (s.next == if actual > old'.next then actual else old'.next)
                     && s.confirmed >= old'.confirmed
                     && (forall k :: NewlyConfirmed(t, k, address, actual, expected, find) ==> t.allocations[k].seqno <= s.confirmed)
                     && (s.confirmed > old'.confirmed ==>
                           exists k :: NewlyConfirmed(t, k, address, actual, expected, find) && t.allocations[k].seqno == s.confirmed))
  {
    forall k | 0 <= k < |t.allocations|
      ensures Resolves(t.allocations[k], address, actual, expected, find) <==> NewlyConfirmed(t, k, address, actual, expected, find)
    {
    }
    if address in t.sequences {
      var start := t.sequences[address].confirmed;
      ResolvedIsLargest(t.allocations, start, address, actual, expected, find);
      var c := ResolvedConfirmed(t.allocations, start, address, actual, expected, find);
      if c > start {
        var i :| 0 <= i < |t.allocations| && Resolves(t.allocations[i], address, actual, expected, find) && t.allocations[i].seqno == c;
        assert NewlyConfirmed(t, i, address, actual, expected, find);
      }
    }
  }
}
