/** Wallet sequence numbers: what each call of the manager does to its two tables, and what every run of calls keeps. */
module SeqnoTables {
  import opened Basics

  datatype AllocationStatus = RESERVED | BROADCASTED | CONFIRMED | EXPIRED | FAILED

  datatype Allocation = Allocation(payout: nat, address: string, seqno: int, status: AllocationStatus)

  datatype Sequence = Sequence(current: int, next: int, confirmed: int)

  datatype Tables = Tables(sequences: map<string, Sequence>, allocations: seq<Allocation>)

  datatype Execution = Execution(source: string, seqno: int, destination: string, amount: int, success: bool)

  datatype Snapshot = Snapshot(destination: string, amount: int)

  datatype Gate =
    | Allowed(seqno: int)
    | NoAllocation
    | AlreadyConfirmed
    | SequenceStateMismatch
    | MissingPredecessorGap
    | PredecessorFailed(predecessor: int)
    | PredecessorInFlight(predecessor: int)
    | PredecessorUnconfirmed(predecessor: int)

  datatype ConfirmError = NoSeqnoAllocation | TreasuryAddressMismatch | SeqnoMismatch

  function Max(a: int, b: int): int { if a < b then b else a }

  // ---------------------------------------------------------------------------
  // What each call means
  // ---------------------------------------------------------------------------

  function FindAllocation(rows: seq<Allocation>, payout: nat): (k: Option<nat>)
    ensures k.Some? ==> k.value < |rows| && rows[k.value].payout == payout
    ensures k.None? ==> forall i :: 0 <= i < |rows| ==> rows[i].payout != payout
  {
    if rows == [] then None
    else match FindAllocation(rows[..|rows| - 1], payout)
         case Some(k) => Some(k)
         case None => if rows[|rows| - 1].payout == payout then Some(|rows| - 1) else None
  }

  function SequenceRow(t: Tables, address: string, initial: int): Sequence {
    if address in t.sequences then t.sequences[address] else Sequence(initial, initial, initial - 1)
  }

  function Allocate(t: Tables, address: string, payout: nat, initial: int): (Tables, int) {
    match FindAllocation(t.allocations, payout)
    case Some(k) => (t, t.allocations[k].seqno)
    case None =>
      var row := SequenceRow(t, address, initial);
      (Tables(t.sequences[address := row.(next := row.next + 1)],
              t.allocations + [Allocation(payout, address, row.next, RESERVED)]),
       row.next)
  }

  predicate Predecessor(a: Allocation, address: string, seqno: int) { a.address == address && a.seqno < seqno }

  /** The largest predecessor, if there is one. */
  function LastPredecessor(rows: seq<Allocation>, address: string, seqno: int): (p: Option<int>)
    ensures p.None? <==> forall i :: 0 <= i < |rows| ==> !Predecessor(rows[i], address, seqno)
    ensures p.Some? ==> p.value < seqno
    ensures p.Some? ==> exists i :: 0 <= i < |rows| && rows[i].address == address && rows[i].seqno == p.value
    ensures p.Some? ==> forall i :: 0 <= i < |rows| && Predecessor(rows[i], address, seqno) ==> rows[i].seqno <= p.value
  {
    if rows == [] then None
    else
      var r := rows[|rows| - 1];
      var rest := LastPredecessor(rows[..|rows| - 1], address, seqno);
      if !Predecessor(r, address, seqno) then rest
      else Some(if rest.Some? then Max(rest.value, r.seqno) else r.seqno)
  }

  function Blocker(a: Allocation): Gate
    requires a.status != CONFIRMED
  {
    match a.status
    case FAILED => PredecessorFailed(a.seqno)
    case BROADCASTED => PredecessorInFlight(a.seqno)
    case _ => PredecessorUnconfirmed(a.seqno)
  }

  /** The first predecessor in table order that is not CONFIRMED. */
  function FirstUnconfirmed(rows: seq<Allocation>, address: string, seqno: int): (k: Option<nat>)
    ensures k.Some? ==> k.value < |rows| && Predecessor(rows[k.value], address, seqno) && rows[k.value].status != CONFIRMED
    ensures k.Some? ==> forall i :: 0 <= i < k.value && Predecessor(rows[i], address, seqno) ==> rows[i].status == CONFIRMED
    ensures k.None? <==> forall i :: 0 <= i < |rows| && Predecessor(rows[i], address, seqno) ==> rows[i].status == CONFIRMED
  {
    if rows == [] then None
    else match FirstUnconfirmed(rows[..|rows| - 1], address, seqno)
         case Some(k) => Some(k)
         case None =>
           var r := rows[|rows| - 1];
           if Predecessor(r, address, seqno) && r.status != CONFIRMED then Some(|rows| - 1) else None
  }

  predicate InFlight(a: Allocation, address: string, seqno: int) {
    a.address == address && a.status == BROADCASTED && a.seqno != seqno
  }

  function FirstInFlight(rows: seq<Allocation>, address: string, seqno: int): (k: Option<nat>)
    ensures k.Some? ==> k.value < |rows| && InFlight(rows[k.value], address, seqno)
    ensures k.None? <==> forall i :: 0 <= i < |rows| ==> !InFlight(rows[i], address, seqno)
  {
    if rows == [] then None
    else match FirstInFlight(rows[..|rows| - 1], address, seqno)
         case Some(k) => Some(k)
         case None => if InFlight(rows[|rows| - 1], address, seqno) then Some(|rows| - 1) else None
  }

  function CanBroadcast(t: Tables, address: string, payout: nat): Gate {
    match FindAllocation(t.allocations, payout)
    case None => NoAllocation
    case Some(k) =>
      var mine := t.allocations[k];
      if mine.status == CONFIRMED then AlreadyConfirmed
      else if address !in t.sequences then SequenceStateMismatch
      else if t.sequences[address].current != mine.seqno || t.sequences[address].confirmed != mine.seqno - 1 then
        SequenceStateMismatch
      else Predecessors(t.allocations, address, mine.seqno)
  }

  function Predecessors(rows: seq<Allocation>, address: string, seqno: int): Gate {
    var last := LastPredecessor(rows, address, seqno);
    if last.Some? && last.value != seqno - 1 then MissingPredecessorGap
    else match FirstUnconfirmed(rows, address, seqno)
         case Some(k) => Blocker(rows[k])
         case None =>
           match FirstInFlight(rows, address, seqno)
           case Some(k) => PredecessorInFlight(rows[k].seqno)
           case None => Allowed(seqno)
  }

  function WithStatus(rows: seq<Allocation>, payout: nat, status: AllocationStatus): (out: seq<Allocation>)
    ensures |out| == |rows|
    ensures forall i :: 0 <= i < |rows| ==> out[i] == if rows[i].payout == payout then rows[i].(status := status) else rows[i]
  {
    seq(|rows|, i requires 0 <= i < |rows| => if rows[i].payout == payout then rows[i].(status := status) else rows[i])
  }

  function MarkBroadcasted(t: Tables, payout: nat): Tables {
    t.(allocations := WithStatus(t.allocations, payout, BROADCASTED))
  }

  function Fail(t: Tables, payout: nat): Tables {
    t.(allocations := WithStatus(t.allocations, payout, FAILED))
  }

  function Advance(sequences: map<string, Sequence>, address: string, seqno: int): map<string, Sequence> {
    if address in sequences then
      var row := sequences[address];
      sequences[address := row.(confirmed := Max(row.confirmed, seqno), current := Max(row.current, seqno + 1))]
    else sequences
  }

  function Confirm(t: Tables, address: string, payout: nat, supplied: int): (Tables, Option<ConfirmError>) {
    match FindAllocation(t.allocations, payout)
    case None => (t, Some(NoSeqnoAllocation))
    case Some(k) =>
      if t.allocations[k].address != address then (t, Some(TreasuryAddressMismatch))
      else if t.allocations[k].seqno != supplied then (t, Some(SeqnoMismatch))
      else (Tables(Advance(t.sequences, address, supplied), WithStatus(t.allocations, payout, CONFIRMED)), None)
  }

  function SyncOnChain(t: Tables, address: string, onChain: int): Tables {
    if address in t.sequences then
      var row := t.sequences[address];
      t.(sequences := t.sequences[address := row.(current := Max(row.current, onChain), next := Max(row.next, onChain))])
    else t.(sequences := t.sequences[address := Sequence(onChain, onChain, -1)])
  }

  predicate Stuck(a: Allocation, address: string, actual: int) {
    a.address == address && a.seqno < actual && (a.status == RESERVED || a.status == BROADCASTED)
  }

  predicate ExactMatch(e: Execution, address: string, a: Allocation, expected: Snapshot) {
    e.source == address && e.seqno == a.seqno && e.destination == expected.destination && e.amount == expected.amount && e.success
  }

  type Finder = nat -> Option<Execution>
  type Snapshots = nat -> Snapshot

  /** What evidence makes of a stuck row; without evidence it stays as it is. */
  function Judged(a: Allocation, address: string, actual: int, expected: Snapshots, find: Finder): Allocation {
    if !Stuck(a, address, actual) then a
    else match find(a.payout)
         case None => a
         case Some(e) => a.(status := if ExactMatch(e, address, a, expected(a.payout)) then CONFIRMED else FAILED)
  }

  function JudgedRows(rows: seq<Allocation>, address: string, actual: int, expected: Snapshots, find: Finder): (out: seq<Allocation>)
    ensures |out| == |rows| && forall i :: 0 <= i < |rows| ==> out[i] == Judged(rows[i], address, actual, expected, find)
  {
    seq(|rows|, i requires 0 <= i < |rows| => Judged(rows[i], address, actual, expected, find))
  }

  predicate Resolves(a: Allocation, address: string, actual: int, expected: Snapshots, find: Finder) {
    Stuck(a, address, actual) && Judged(a, address, actual, expected, find).status == CONFIRMED
  }

  function ResolvedConfirmed(rows: seq<Allocation>, start: int, address: string, actual: int, expected: Snapshots, find: Finder): (c: int)
    ensures c >= start
  {
    if rows == [] then start
    else
      var rest := ResolvedConfirmed(rows[..|rows| - 1], start, address, actual, expected, find);
      var r := rows[|rows| - 1];
      if Resolves(r, address, actual, expected, find) then Max(rest, r.seqno) else rest
  }

  function Expire(a: Allocation, address: string, actual: int): Allocation {
    if a.address == address && a.seqno >= actual && a.status == RESERVED then a.(status := EXPIRED) else a
  }

  function ExpireRows(rows: seq<Allocation>, address: string, actual: int): (out: seq<Allocation>)
    ensures |out| == |rows| && forall i :: 0 <= i < |rows| ==> out[i] == Expire(rows[i], address, actual)
  {
    seq(|rows|, i requires 0 <= i < |rows| => Expire(rows[i], address, actual))
  }

  function Reconcile(t: Tables, address: string, actual: int, expected: Snapshots, find: Finder): Tables {
    var rows := ExpireRows(JudgedRows(t.allocations, address, actual, expected, find), address, actual);
    if address !in t.sequences then t.(allocations := rows)
    else
      var row := t.sequences[address];
      var confirmed := ResolvedConfirmed(t.allocations, row.confirmed, address, actual, expected, find);
      Tables(t.sequences[address := Sequence(actual, Max(row.next, actual), confirmed)], rows)
  }

  // ---------------------------------------------------------------------------
  // Runs
  // ---------------------------------------------------------------------------

  datatype Call =
    | DoAllocate(address: string, payout: nat, initial: int)
    | DoCanBroadcast(address: string, payout: nat)
    | DoMarkBroadcasted(payout: nat)
    | DoConfirm(address: string, payout: nat, supplied: int)
    | DoFail(payout: nat)
    | DoSyncOnChain(address: string, onChain: int)
    | DoReconcile(address: string, actual: int, expected: Snapshots, find: Finder)

  ghost function Do(t: Tables, c: Call): Tables {
    match c
    case DoAllocate(address, payout, initial) => Allocate(t, address, payout, initial).0
    case DoCanBroadcast(_, _) => t
    case DoMarkBroadcasted(payout) => MarkBroadcasted(t, payout)
    case DoConfirm(address, payout, supplied) => Confirm(t, address, payout, supplied).0
    case DoFail(payout) => Fail(t, payout)
    case DoSyncOnChain(address, onChain) => SyncOnChain(t, address, onChain)
    case DoReconcile(address, actual, expected, find) => Reconcile(t, address, actual, expected, find)
  }

  const NoTables := Tables(map[], [])

  ghost function RunCalls(t: Tables, cs: seq<Call>): Tables {
    if cs == [] then t else Do(RunCalls(t, cs[..|cs| - 1]), cs[|cs| - 1])
  }

  /** Rows of one wallet carry increasing seqnos, all below the wallet's next one; a payout has one row. */
  ghost predicate Ordered(t: Tables) {
    && (forall i :: 0 <= i < |t.allocations| ==>
          t.allocations[i].address in t.sequences && t.allocations[i].seqno < t.sequences[t.allocations[i].address].next)
    && (forall i, j :: 0 <= i < j < |t.allocations| ==> t.allocations[i].payout != t.allocations[j].payout)
    && (forall i, j :: 0 <= i < j < |t.allocations| && t.allocations[i].address == t.allocations[j].address ==>
          t.allocations[i].seqno < t.allocations[j].seqno)
  }

  /** Rows keep payout, wallet and seqno; counters `next` and `confirmed` never fall; new rows come on top of `next`. */
  ghost predicate Grows(s: Tables, t: Tables) {
    && |s.allocations| <= |t.allocations|
    && (forall i :: 0 <= i < |s.allocations| ==> t.allocations[i] == s.allocations[i].(status := t.allocations[i].status))
    && (forall a :: a in s.sequences ==>
          a in t.sequences && s.sequences[a].next <= t.sequences[a].next && s.sequences[a].confirmed <= t.sequences[a].confirmed)
    && (forall i :: |s.allocations| <= i < |t.allocations| && t.allocations[i].address in s.sequences ==>
          t.allocations[i].seqno >= s.sequences[t.allocations[i].address].next)
  }

  /** Statuses and counters move, rows are neither added nor renumbered. */
  lemma SameRowsGrow(s: Tables, t: Tables)
    requires Ordered(s) && |t.allocations| == |s.allocations|
    requires forall i :: 0 <= i < |s.allocations| ==> t.allocations[i] == s.allocations[i].(status := t.allocations[i].status)
    requires forall a :: a in s.sequences ==>
               a in t.sequences && s.sequences[a].next <= t.sequences[a].next && s.sequences[a].confirmed <= t.sequences[a].confirmed
    ensures Ordered(t) && Grows(s, t)
  {
    forall i, j | 0 <= i < j < |t.allocations| ensures t.allocations[i].payout != t.allocations[j].payout {
      assert s.allocations[i].payout != s.allocations[j].payout;
    }
    forall i, j | 0 <= i < j < |t.allocations| && t.allocations[i].address == t.allocations[j].address
      ensures t.allocations[i].seqno < t.allocations[j].seqno
    {
      assert s.allocations[i].address == s.allocations[j].address;
    }
  }

  lemma AllocateGrows(t: Tables, address: string, payout: nat, initial: int)
    requires Ordered(t)
    ensures Ordered(Allocate(t, address, payout, initial).0) && Grows(t, Allocate(t, address, payout, initial).0)
  {
  }

  lemma ConfirmGrows(t: Tables, address: string, payout: nat, supplied: int)
    requires Ordered(t)
    ensures Ordered(Confirm(t, address, payout, supplied).0) && Grows(t, Confirm(t, address, payout, supplied).0)
  {
    SameRowsGrow(t, Confirm(t, address, payout, supplied).0);
  }

  lemma ReconcileGrows(t: Tables, address: string, actual: int, expected: Snapshots, find: Finder)
    requires Ordered(t)
    ensures Ordered(Reconcile(t, address, actual, expected, find)) && Grows(t, Reconcile(t, address, actual, expected, find))
  {
    SameRowsGrow(t, Reconcile(t, address, actual, expected, find));
  }

  lemma CallGrows(t: Tables, c: Call)
    requires Ordered(t)
    ensures Ordered(Do(t, c)) && Grows(t, Do(t, c))
  {
    match c
    case DoAllocate(address, payout, initial) => AllocateGrows(t, address, payout, initial);
    case DoCanBroadcast(_, _) => SameRowsGrow(t, t);
    case DoMarkBroadcasted(payout) => SameRowsGrow(t, MarkBroadcasted(t, payout));
    case DoConfirm(address, payout, supplied) => ConfirmGrows(t, address, payout, supplied);
    case DoFail(payout) => SameRowsGrow(t, Fail(t, payout));
    case DoSyncOnChain(address, onChain) => SameRowsGrow(t, SyncOnChain(t, address, onChain));
    case DoReconcile(address, actual, expected, find) => ReconcileGrows(t, address, actual, expected, find);
  }

  lemma GrowsTransitive(s: Tables, t: Tables, u: Tables)
    requires Grows(s, t) && Grows(t, u) && Ordered(s) && Ordered(t)
    ensures Grows(s, u)
  {
    forall i | |s.allocations| <= i < |u.allocations| && u.allocations[i].address in s.sequences
      ensures u.allocations[i].seqno >= s.sequences[u.allocations[i].address].next
    {
      assert i < |t.allocations| ==> u.allocations[i].address == t.allocations[i].address;
    }
  }

  lemma {:induction false} RunOrdered(cs: seq<Call>)
    ensures Ordered(RunCalls(NoTables, cs))
  {
    if cs != [] {
      RunOrdered(cs[..|cs| - 1]);
      CallGrows(RunCalls(NoTables, cs[..|cs| - 1]), cs[|cs| - 1]);
    }
  }

  lemma {:induction false} PrefixGrows(cs: seq<Call>, i: nat)
    requires i <= |cs|
    ensures Grows(RunCalls(NoTables, cs[..i]), RunCalls(NoTables, cs))
    ensures Ordered(RunCalls(NoTables, cs[..i])) && Ordered(RunCalls(NoTables, cs))
  {
    RunOrdered(cs);
    RunOrdered(cs[..i]);
    if i < |cs| {
      var before := cs[..|cs| - 1];
      PrefixGrows(before, i);
      assert before[..i] == cs[..i];
      CallGrows(RunCalls(NoTables, before), cs[|cs| - 1]);
      GrowsTransitive(RunCalls(NoTables, cs[..i]), RunCalls(NoTables, before), RunCalls(NoTables, cs));
    } else {
      assert cs[..i] == cs;
    }
  }

  // ---------------------------------------------------------------------------
  // Theorems
  // ---------------------------------------------------------------------------

  /** Call `i` of the run asks the gate of wallet `address` for `payout` and is let through with `seqno`. */
  ghost predicate Opens(cs: seq<Call>, i: nat, address: string, payout: nat, seqno: int)
    requires i < |cs|
  {
    cs[i] == DoCanBroadcast(address, payout) && CanBroadcast(RunCalls(NoTables, cs[..i]), address, payout) == Allowed(seqno)
  }

  predicate AllocatedOn(rows: seq<Allocation>, address: string, payout: nat) {
    exists k :: 0 <= k < |rows| && rows[k].payout == payout && rows[k].address == address
  }

  /** After every run, the allocations of a wallet carry pairwise distinct seqnos, and a payout has one allocation. */
  lemma SeqnosAreDistinct(cs: seq<Call>)
    ensures var rows := RunCalls(NoTables, cs).allocations;
            forall i, j :: 0 <= i < j < |rows| ==>
              rows[i].payout != rows[j].payout && (rows[i].address == rows[j].address ==> rows[i].seqno != rows[j].seqno)
  {
    RunOrdered(cs);
  }

  /** What the gate has seen when it opens. */
  lemma OpenGate(t: Tables, address: string, payout: nat, seqno: int)
    requires CanBroadcast(t, address, payout) == Allowed(seqno)
    ensures FindAllocation(t.allocations, payout).Some?
    ensures t.allocations[FindAllocation(t.allocations, payout).value].seqno == seqno
    ensures address in t.sequences && t.sequences[address].confirmed == seqno - 1 && t.sequences[address].current == seqno
    ensures forall k :: 0 <= k < |t.allocations| && t.allocations[k].address == address ==>
              && (t.allocations[k].seqno < seqno ==> t.allocations[k].status == CONFIRMED)
              && (t.allocations[k].seqno != seqno ==> t.allocations[k].status != BROADCASTED)
  {
    var rows := t.allocations;
    forall k | 0 <= k < |rows| && rows[k].address == address
      ensures (rows[k].seqno < seqno ==> rows[k].status == CONFIRMED) && (rows[k].seqno != seqno ==> rows[k].status != BROADCASTED)
    {
      assert rows[k].seqno < seqno ==> Predecessor(rows[k], address, seqno);
      assert !InFlight(rows[k], address, seqno);
    }
  }

  /** No other row of the wallet is in flight, and rows added later carry larger seqnos. */
  lemma OpenIsAlone(t: Tables, later: Tables, address: string, payout: nat, seqno: int)
    requires Ordered(t) && Grows(t, later) && AllocatedOn(t.allocations, address, payout)
    requires FindAllocation(t.allocations, payout).Some?
    requires t.allocations[FindAllocation(t.allocations, payout).value].seqno == seqno
    requires address in t.sequences
    requires forall k :: 0 <= k < |t.allocations| && t.allocations[k].address == address && t.allocations[k].seqno != seqno ==>
               t.allocations[k].status != BROADCASTED
    ensures forall k :: 0 <= k < |t.allocations| && t.allocations[k].address == address && t.allocations[k].status == BROADCASTED ==>
              t.allocations[k].payout == payout
    ensures forall k :: |t.allocations| <= k < |later.allocations| && later.allocations[k].address == address ==>
              later.allocations[k].seqno > seqno
  {
    var mine :| 0 <= mine < |t.allocations| && t.allocations[mine].payout == payout && t.allocations[mine].address == address;
    assert t.allocations[mine].seqno == seqno;
  }

  /**
   When the gate opens for a payout of the wallet, every allocation the wallet has with a smaller seqno is CONFIRMED,
   none but the payout's own is in flight, and no smaller seqno is ever allocated later.
   */
  lemma OpeningsAreInOrder(cs: seq<Call>, i: nat, address: string, payout: nat, seqno: int)
    requires i < |cs| && Opens(cs, i, address, payout, seqno)
    requires AllocatedOn(RunCalls(NoTables, cs[..i]).allocations, address, payout)
    ensures var rows := RunCalls(NoTables, cs[..i]).allocations;
            forall k :: 0 <= k < |rows| && rows[k].address == address ==>
              && (rows[k].seqno < seqno ==> rows[k].status == CONFIRMED)
              && (rows[k].status == BROADCASTED ==> rows[k].payout == payout)
    ensures var before, after := RunCalls(NoTables, cs[..i]).allocations, RunCalls(NoTables, cs).allocations;
            forall k :: |before| <= k < |after| && after[k].address == address ==> after[k].seqno > seqno
  {
    var t := RunCalls(NoTables, cs[..i]);
    OpenGate(t, address, payout, seqno);
    PrefixGrows(cs, i);
    OpenIsAlone(t, RunCalls(NoTables, cs), address, payout, seqno);
  }

  /** The payout holds `seqno` on the wallet, which has confirmed exactly everything below it. */
  ghost predicate Ready(t: Tables, address: string, payout: nat, seqno: int) {
    && (exists k :: 0 <= k < |t.allocations| && t.allocations[k].payout == payout
                    && t.allocations[k].address == address && t.allocations[k].seqno == seqno)
    && address in t.sequences && t.sequences[address].confirmed == seqno - 1
    && (forall k :: 0 <= k < |t.allocations| && t.allocations[k].address == address && t.allocations[k].seqno < seqno ==>
          t.allocations[k].status == CONFIRMED)
  }

  lemma OpenIsReady(t: Tables, address: string, payout: nat, seqno: int)
    requires Ordered(t) && CanBroadcast(t, address, payout) == Allowed(seqno) && AllocatedOn(t.allocations, address, payout)
    ensures Ready(t, address, payout, seqno)
  {
    OpenGate(t, address, payout, seqno);
    var k :| 0 <= k < |t.allocations| && t.allocations[k].payout == payout && t.allocations[k].address == address;
    assert t.allocations[k].seqno == seqno;
  }

  lemma ReadyInOrder(early: Tables, late: Tables, address: string, p: nat, q: nat, s: int, u: int)
    requires Ordered(late) && Grows(early, late)
    requires Ready(early, address, p, s) && Ready(late, address, q, u)
    ensures s <= u && (s == u <==> p == q)
    ensures s < u ==> Allocation(p, address, s, CONFIRMED) in late.allocations
  {
    var k :| 0 <= k < |early.allocations| && early.allocations[k].payout == p
             && early.allocations[k].address == address && early.allocations[k].seqno == s;
    var l :| 0 <= l < |late.allocations| && late.allocations[l].payout == q
             && late.allocations[l].address == address && late.allocations[l].seqno == u;
    var row := late.allocations[k];
    assert row == early.allocations[k].(status := row.status);
    assert row == Allocation(p, address, s, row.status);
  }

  /**
   Openings of a wallet for its own payouts never go back, a seqno is opened for one payout only, and the gate moves
   past a payout only once that payout is CONFIRMED.
   */
  lemma OpeningsNeverGoBack(cs: seq<Call>, i: nat, j: nat, address: string, p: nat, q: nat, s: int, u: int)
    requires i < j < |cs| && Opens(cs, i, address, p, s) && Opens(cs, j, address, q, u)
    requires AllocatedOn(RunCalls(NoTables, cs[..i]).allocations, address, p)
    requires AllocatedOn(RunCalls(NoTables, cs[..j]).allocations, address, q)
    ensures s <= u && (s == u <==> p == q)
    ensures s < u ==> Allocation(p, address, s, CONFIRMED) in RunCalls(NoTables, cs[..j]).allocations
  {
    assert cs[..j][..i] == cs[..i];
    PrefixGrows(cs[..j], i);
    var early, late := RunCalls(NoTables, cs[..i]), RunCalls(NoTables, cs[..j]);
    OpenIsReady(early, address, p, s);
    OpenIsReady(late, address, q, u);
    ReadyInOrder(early, late, address, p, q, s, u);
  }

  /** The gate's answer depends on the payout only through its seqno, while it is unconfirmed. */
  lemma SameSeqnoSameGate(t: Tables, address: string, p: nat, q: nat)
    requires FindAllocation(t.allocations, p).Some? && FindAllocation(t.allocations, q).Some?
    requires var k, l := FindAllocation(t.allocations, p).value, FindAllocation(t.allocations, q).value;
             t.allocations[k].seqno == t.allocations[l].seqno
             && t.allocations[k].status != CONFIRMED && t.allocations[l].status != CONFIRMED
    ensures CanBroadcast(t, address, p) == CanBroadcast(t, address, q)
  {
  }

  lemma AllowedIsUnconfirmed(t: Tables, address: string, p: nat, seqno: int)
    requires CanBroadcast(t, address, p) == Allowed(seqno)
    ensures FindAllocation(t.allocations, p).Some?
    ensures var k := FindAllocation(t.allocations, p).value;
            t.allocations[k].seqno == seqno && t.allocations[k].status != CONFIRMED
  {
  }

  ghost predicate HeldElsewhere(rows: seq<Allocation>, address: string, q: nat, seqno: int) {
    exists k :: 0 <= k < |rows| && rows[k].payout == q && rows[k].address != address
                && rows[k].seqno == seqno && rows[k].status != CONFIRMED
  }

  /**
   The gate reads the payout's seqno but checks the wallet it is given: asked about another wallet's payout, it opens
   exactly when that payout is unconfirmed and carries the seqno the wallet would open for its own.
   */
  lemma OneOwnerOnlyOnItsOwnWallet(cs: seq<Call>, address: string, p: nat, q: nat, seqno: int)
    requires CanBroadcast(RunCalls(NoTables, cs), address, p) == Allowed(seqno) && p != q
    requires AllocatedOn(RunCalls(NoTables, cs).allocations, address, p)
    ensures CanBroadcast(RunCalls(NoTables, cs), address, q) == Allowed(seqno)
       <==> HeldElsewhere(RunCalls(NoTables, cs).allocations, address, q, seqno)
  {
    RunOrdered(cs);
    SharedSeqno(RunCalls(NoTables, cs), address, p, q, seqno);
  }

  lemma SharedSeqno(t: Tables, address: string, p: nat, q: nat, seqno: int)
    requires Ordered(t) && CanBroadcast(t, address, p) == Allowed(seqno) && p != q && AllocatedOn(t.allocations, address, p)
    ensures CanBroadcast(t, address, q) == Allowed(seqno) <==> HeldElsewhere(t.allocations, address, q, seqno)
  {
    AllowedIsUnconfirmed(t, address, p, seqno);
    var k := FindAllocation(t.allocations, p).value;
    assert t.allocations[k].address == address;
    if CanBroadcast(t, address, q) == Allowed(seqno) {
      AllowedIsUnconfirmed(t, address, q, seqno);
      var l := FindAllocation(t.allocations, q).value;
      assert t.allocations[l].address != address;
    }
    if HeldElsewhere(t.allocations, address, q, seqno) {
      var l :| 0 <= l < |t.allocations| && t.allocations[l].payout == q && t.allocations[l].address != address
               && t.allocations[l].seqno == seqno && t.allocations[l].status != CONFIRMED;
      assert FindAllocation(t.allocations, q) == Some(l);
      SameSeqnoSameGate(t, address, p, q);
    }
  }
}
