/** Posting and sealing over time: what a run of both leaves, and the procedures that seal and verify. */
module LedgerBlocks {
  import opened Basics
  import opened Sums
  import opened Sequences
  import Decimal
  import MoneyMath
  import L = Ledger
  import opened BlockChain
  import opened BlockOrder

  /** Journals in the order of their commits with the numbers they drew, their entry rows, and the sealed blocks. */
  datatype Books = Books(journals: seq<L.Journal>, numbers: seq<nat>, rows: seq<Row>, blocks: seq<Sealed>)

  /**
   What a posting is given: its journal's number and id, and number and id of each entry. Any numbers: sequences leave
   gaps, and a posting may commit after one that drew its number later.
   */
  datatype Given = Given(number: nat, journalId: string, sequence: nat -> nat, entryId: nat -> string)

  /** Account ids are given once for all. */
  type Accounts = L.AccountId -> string

  function ToRow(accounts: Accounts, e: L.Entry, given: Given, i: nat): Row {
    Row(given.number, EntryRow(given.entryId(i), given.journalId, accounts(e.account),
                               e.debit, e.credit, e.currency, e.bucket, given.sequence(i)))
  }

  function NewRows(accounts: Accounts, es: seq<L.Entry>, given: Given): (r: seq<Row>)
    ensures |r| == |es| && forall i :: 0 <= i < |r| ==> r[i].journal == given.number
  {
    if es == [] then []
    else NewRows(accounts, es[..|es| - 1], given) + [ToRow(accounts, es[|es| - 1], given, |es| - 1)]
  }

  function Appended(accounts: Accounts, b: Books, j: L.Journal, given: Given): Books {
    b.(journals := b.journals + [j], numbers := b.numbers + [given.number], rows := b.rows + NewRows(accounts, j.entries, given))
  }

  ghost predicate Creates(b: Books, d: L.JournalDraft) {
    L.Posting(b.journals, d).result.Posted? && L.Posting(b.journals, d).result.created
  }

  ghost function AfterPost(accounts: Accounts, b: Books, d: L.JournalDraft, given: Given): Books {
    if Creates(b, d) then Appended(accounts, b, L.Posting(b.journals, d).journals[|b.journals|], given) else b
  }

  function EntryNumber(): Row -> int { (r: Row) => r.entry.sequence }

  /** Rows as the queries return them. */
  function InEntryOrder(rows: seq<Row>): seq<Row> { Sort(rows, EntryNumber()) }

  function BlocksOf(table: seq<Sealed>): (r: seq<Block>)
    ensures |r| == |table| && forall k :: 0 <= k < |r| ==> r[k] == table[k].block
  {
    seq(|table|, k requires 0 <= k < |table| => table[k].block)
  }

  function End(read: seq<Sealed>): int { if read == [] then 0 else read[|read| - 1].block.end }

  function NewBlock(h: Hash, rows: seq<Row>, previous: string, start: int, end: int): Block {
    var covered := Keep(rows, Within(start, end));
    var b := Block(start, end, |covered|, previous, MerkleRoot(h, Leaves(h, covered)), "");
    b.(current := h(Header(b)))
  }

  function Above(after: int): nat -> bool { (n: nat) => n > after }

  function Least(s: seq<nat>): (m: nat)
    requires s != []
    ensures m in s && forall n :: n in s ==> m <= n
  {
    var last := s[|s| - 1];
    if |s| == 1 then last
    else
      assert s == s[..|s| - 1] + [last];
      var m := Least(s[..|s| - 1]); if last < m then last else m
  }

  function Greatest(s: seq<nat>): (m: nat)
    requires s != []
    ensures m in s && forall n :: n in s ==> n <= m
  {
    var last := s[|s| - 1];
    if |s| == 1 then last
    else
      assert s == s[..|s| - 1] + [last];
      var m := Greatest(s[..|s| - 1]); if last > m then last else m
  }

  predicate HasId(table: seq<Sealed>, id: nat) { exists k :: 0 <= k < |table| && table[k].id == id }

  /** The block after the last one read, over every journal numbered above that one's end; None when there is none. */
  function Sealing(h: Hash, b: Books): Option<Block> {
    var read := Reading(b.blocks);
    var unsealed := Keep(b.numbers, Above(End(read)));
    if unsealed == [] then None
    else Some(NewBlock(h, InEntryOrder(b.rows), Tip(BlocksOf(read)), Least(unsealed), Greatest(unsealed)))
  }

  function AfterSeal(h: Hash, b: Books, id: nat): Books {
    match Sealing(h, b)
    case None => b
    case Some(block) => if HasId(b.blocks, id) then b else b.(blocks := b.blocks + [Sealed(id, block)])
  }

  datatype Action = DoPost(draft: L.JournalDraft, given: Given) | DoSeal(id: nat)

  ghost function Next(h: Hash, accounts: Accounts, b: Books, a: Action): Books {
    match a
    case DoPost(d, given) => AfterPost(accounts, b, d, given)
    case DoSeal(id) => AfterSeal(h, b, id)
  }

  ghost function Run(h: Hash, accounts: Accounts, actions: seq<Action>): Books {
    if actions == [] then Books([], [], [], [])
    else Next(h, accounts, Run(h, accounts, actions[..|actions| - 1]), actions[|actions| - 1])
  }

  // ---------------------------------------------------------------------------
  // The rows are the journals' entries
  // ---------------------------------------------------------------------------

  /** What a row and a journal entry share. */
  datatype Line = Line(journal: nat, accountId: string, debit: nat, credit: nat, currency: MoneyMath.Currency, bucket: L.Bucket)

  function LinesOfRows(rows: seq<Row>): seq<Line> {
    if rows == [] then []
    else
      var r := rows[|rows| - 1];
      LinesOfRows(rows[..|rows| - 1])
      + [Line(r.journal, r.entry.accountId, r.entry.debit, r.entry.credit, r.entry.currency, r.entry.bucket)]
  }

  function LinesOfEntries(accounts: Accounts, es: seq<L.Entry>, number: nat): seq<Line> {
    if es == [] then []
    else
      var e := es[|es| - 1];
      LinesOfEntries(accounts, es[..|es| - 1], number)
      + [Line(number, accounts(e.account), e.debit, e.credit, e.currency, e.bucket)]
  }

  function LinesOfJournals(accounts: Accounts, js: seq<L.Journal>, numbers: seq<nat>): seq<Line>
    requires |js| == |numbers|
  {
    if js == [] then []
    else
      var n := |js| - 1;
      LinesOfJournals(accounts, js[..n], numbers[..n]) + LinesOfEntries(accounts, js[n].entries, numbers[n])
  }

  lemma {:induction false} LinesConcat(a: seq<Row>, b: seq<Row>)
    ensures LinesOfRows(a + b) == LinesOfRows(a) + LinesOfRows(b)
  {
    if b == [] {
      assert a + b == a;
    } else {
      var n := |b| - 1;
      assert (a + b)[..|a + b| - 1] == a + b[..n];
      LinesConcat(a, b[..n]);
    }
  }

  lemma {:induction false} NewRowsLines(accounts: Accounts, es: seq<L.Entry>, given: Given)
    ensures LinesOfRows(NewRows(accounts, es, given)) == LinesOfEntries(accounts, es, given.number)
  {
    if es != [] {
      var n := |es| - 1;
      var init, last := NewRows(accounts, es[..n], given), ToRow(accounts, es[n], given, n);
      NewRowsLines(accounts, es[..n], given);
      assert NewRows(accounts, es, given) == init + [last];
      assert (init + [last])[..|init|] == init;
    }
  }

  lemma AppendedLines(accounts: Accounts, b: Books, j: L.Journal, given: Given)
    requires |b.numbers| == |b.journals| && LinesOfRows(b.rows) == LinesOfJournals(accounts, b.journals, b.numbers)
    ensures var next := Appended(accounts, b, j, given);
            |next.numbers| == |next.journals| && LinesOfRows(next.rows) == LinesOfJournals(accounts, next.journals, next.numbers)
  {
    LinesConcat(b.rows, NewRows(accounts, j.entries, given));
    NewRowsLines(accounts, j.entries, given);
    assert (b.journals + [j])[..|b.journals|] == b.journals && (b.numbers + [given.number])[..|b.numbers|] == b.numbers;
  }

  /** After any run each journal has its entries as rows: number, account, sides, currency and bucket. */
  lemma {:induction false} RowsAreEntries(h: Hash, accounts: Accounts, actions: seq<Action>)
    ensures var b := Run(h, accounts, actions);
            |b.numbers| == |b.journals| && LinesOfRows(b.rows) == LinesOfJournals(accounts, b.journals, b.numbers)
  {
    if actions != [] {
      var n := |actions| - 1;
      var b := Run(h, accounts, actions[..n]);
      RowsAreEntries(h, accounts, actions[..n]);
      if actions[n].DoPost? && Creates(b, actions[n].draft) {
        AppendedLines(accounts, b, L.Posting(b.journals, actions[n].draft).journals[|b.journals|], actions[n].given);
      }
    }
  }

  // ---------------------------------------------------------------------------
  // How blocks are chained
  // ---------------------------------------------------------------------------

  /** Sealed as hashed, over a range that begins and ends with a journal's number. */
  ghost predicate WellSealed(h: Hash, numbers: seq<nat>, x: Block) {
    && x.current == h(Header(x)) && '|' !in x.previous && '|' !in x.merkleRoot
    && x.start <= x.end && x.start in numbers && x.end in numbers
  }

  ghost predicate AllWellSealed(h: Hash, b: Books) {
    forall k :: 0 <= k < |b.blocks| ==> WellSealed(h, b.numbers, b.blocks[k].block)
  }

  /** Each block continues the one sealed before it. */
  ghost predicate Linked(table: seq<Sealed>) {
    && (table != [] ==> table[0].block.previous == ZERO_HASH)
    && (forall k :: 0 < k < |table| ==> table[k].block.previous == table[k - 1].block.current)
    && (forall j, k :: 0 <= j < k < |table| ==> table[j].block.end < table[k].block.start)
  }

  /** Block `m` continues its predecessor but is read before it, and no other block ends where that one does. */
  ghost predicate Broken(table: seq<Sealed>, m: nat) {
    && 0 < m < |table| && Before(table[m], table[m - 1])
    && table[m].block.previous == table[m - 1].block.current
    && table[m - 1].block.end < table[m].block.end
    && (forall k :: 0 <= k < |table| && k != m - 1 ==> table[k].block.end != table[m - 1].block.end)
  }

  ghost predicate Chained(h: Hash, b: Books) {
    && AllWellSealed(h, b)
    && Distinct(b.blocks) && Ordered(b.blocks)
  }

  lemma InOrderIsNotBroken(table: seq<Sealed>, m: nat)
    requires Broken(table, m)
    ensures !InTextOrder(table)
  {
    BeforeTotal(table[m - 1], table[m]);
  }

  /** A new block ends with the greatest number there is. */
  lemma SealingRange(h: Hash, b: Books)
    requires Sealing(h, b).Some?
    ensures var x := Sealing(h, b).value;
            && End(Reading(b.blocks)) < x.start <= x.end && x.start in b.numbers && x.end in b.numbers
            && (forall n :: n in b.numbers ==> n <= x.end)
            && (forall n :: n in b.numbers && n > End(Reading(b.blocks)) ==> x.start <= n)
  {
    var after := End(Reading(b.blocks));
    var unsealed := Keep(b.numbers, Above(after));
    forall n | n in b.numbers ensures n <= Greatest(unsealed) && (n > after ==> Least(unsealed) <= n) {
      if n > after { assert n in unsealed; }
    }
  }

  lemma NewBlockSealed(h: Hash, rows: seq<Row>, previous: string, start: int, end: int)
    requires HexDigests(h) && '|' !in previous
    ensures var x := NewBlock(h, rows, previous, start, end);
            && x.current == h(Header(x)) && '|' !in x.merkleRoot
            && x.previous == previous && x.start == start && x.end == end
            && |Covered(rows, x)| == x.entryCount && MerkleRoot(h, Leaves(h, Covered(rows, x))) == x.merkleRoot
  {
    var covered := Keep(rows, Within(start, end));
    var b := Block(start, end, |covered|, previous, MerkleRoot(h, Leaves(h, covered)), "");
    assert HeaderParts(NewBlock(h, rows, previous, start, end)) == HeaderParts(b);
    LeavesAreDigests(h, covered);
    RootIsPlain(h, Leaves(h, covered));
  }

  lemma TipIsPlain(h: Hash, b: Books)
    requires HexDigests(h) && AllWellSealed(h, b)
    ensures '|' !in Tip(BlocksOf(Reading(b.blocks)))
  {
    var read := Reading(b.blocks);
    ReadingSorts(b.blocks);
    if read != [] {
      assert read[|read| - 1] in b.blocks;
    }
  }

  lemma SealingIsWellSealed(h: Hash, b: Books)
    requires HexDigests(h) && AllWellSealed(h, b) && Sealing(h, b).Some?
    ensures var x := Sealing(h, b).value;
            && WellSealed(h, b.numbers, x) && x.previous == Tip(BlocksOf(Reading(b.blocks)))
            && |Covered(InEntryOrder(b.rows), x)| == x.entryCount
            && MerkleRoot(h, Leaves(h, Covered(InEntryOrder(b.rows), x))) == x.merkleRoot
  {
    var x := Sealing(h, b).value;
    SealingRange(h, b);
    TipIsPlain(h, b);
    NewBlockSealed(h, InEntryOrder(b.rows), Tip(BlocksOf(Reading(b.blocks))), x.start, x.end);
  }

  lemma LastReadInOrder(table: seq<Sealed>)
    requires InTextOrder(table)
    ensures End(Reading(table)) == End(table) && Tip(BlocksOf(Reading(table))) == Tip(BlocksOf(table))
    ensures Tip(BlocksOf(table)) == if table == [] then ZERO_HASH else table[|table| - 1].block.current
  {
    InOrderReadsAsIs(table);
  }

  ghost predicate Distinct(table: seq<Sealed>) {
    forall j, k :: 0 <= j < k < |table| ==> table[j].id != table[k].id
  }

  /** The table is in order, or it is broken for good. */
  ghost predicate Ordered(table: seq<Sealed>) {
    (InTextOrder(table) && Linked(table)) || exists m :: Broken(table, m)
  }

  lemma SealOrders(h: Hash, b: Books, id: nat)
    requires HexDigests(h) && Chained(h, b) && Sealing(h, b).Some? && !HasId(b.blocks, id)
    ensures Ordered(b.blocks + [Sealed(id, Sealing(h, b).value)])
  {
    var x := Sealed(id, Sealing(h, b).value);
    SealingRange(h, b);
    if InTextOrder(b.blocks) && Linked(b.blocks) {
      SealContinues(h, b);
      WellSealedSpans(h, b);
      SealInOrder(b.blocks, x);
    } else {
      var m :| Broken(b.blocks, m);
      SealAfterBreak(h, b, x, m);
    }
  }

  lemma SealContinues(h: Hash, b: Books)
    requires HexDigests(h) && AllWellSealed(h, b) && InTextOrder(b.blocks) && Sealing(h, b).Some?
    ensures Continues(b.blocks, Sealing(h, b).value)
  {
    SealingRange(h, b);
    SealingIsWellSealed(h, b);
    LastReadInOrder(b.blocks);
  }

  lemma SealChains(h: Hash, b: Books, id: nat)
    requires HexDigests(h) && Chained(h, b)
    ensures Chained(h, AfterSeal(h, b, id))
  {
    if Sealing(h, b).Some? && !HasId(b.blocks, id) {
      SealOrders(h, b, id);
      SealingIsWellSealed(h, b);
      SealedAppends(h, b, Sealed(id, Sealing(h, b).value));
    }
  }

  lemma SealedAppends(h: Hash, b: Books, x: Sealed)
    requires Chained(h, b) && WellSealed(h, b.numbers, x.block) && !HasId(b.blocks, x.id) && Ordered(b.blocks + [x])
    ensures Chained(h, b.(blocks := b.blocks + [x]))
  {
    WellSealedAppended(h, b, x);
    DistinctAppended(b.blocks, x);
  }

  lemma WellSealedAppended(h: Hash, b: Books, x: Sealed)
    requires AllWellSealed(h, b) && WellSealed(h, b.numbers, x.block)
    ensures AllWellSealed(h, b.(blocks := b.blocks + [x]))
  {
  }

  lemma DistinctAppended(table: seq<Sealed>, x: Sealed)
    requires Distinct(table) && !HasId(table, x.id)
    ensures Distinct(table + [x])
  {
  }

  ghost predicate Spans(table: seq<Sealed>) {
    forall k :: 0 <= k < |table| ==> table[k].block.start <= table[k].block.end
  }

  lemma WellSealedSpans(h: Hash, b: Books)
    requires AllWellSealed(h, b)
    ensures Spans(b.blocks)
  {
    forall k | 0 <= k < |b.blocks| ensures b.blocks[k].block.start <= b.blocks[k].block.end {
      assert WellSealed(h, b.numbers, b.blocks[k].block);
    }
  }

  lemma OrderAppends(table: seq<Sealed>, x: Sealed)
    requires InTextOrder(table) && (table != [] ==> Before(table[|table| - 1], x))
    ensures InTextOrder(table + [x])
  {
    var next, n := table + [x], |table|;
    forall i, j | 0 <= i < j < |next| ensures Before(next[i], next[j]) {
      if j == n && i < n - 1 {
        BeforeTransitive(next[i], next[n - 1], x);
      }
    }
  }

  /** The block continues the last one sealed. */
  ghost predicate Continues(table: seq<Sealed>, x: Block) {
    x.start <= x.end && (if table == [] then x.previous == ZERO_HASH
                         else x.previous == table[|table| - 1].block.current && table[|table| - 1].block.end < x.start)
  }

  lemma LinkAppends(table: seq<Sealed>, x: Sealed)
    requires Linked(table) && Continues(table, x.block)
    requires Spans(table)
    ensures Linked(table + [x])
  {
    var next, n := table + [x], |table|;
    forall j, k | 0 <= j < k < |next| ensures next[j].block.end < next[k].block.start {
      if k == n && j < n - 1 {
        assert next[j].block.end < next[n - 1].block.start;
      }
    }
  }

  lemma BreakAppends(table: seq<Sealed>, x: Sealed)
    requires Linked(table) && table != [] && Continues(table, x.block) && Before(x, table[|table| - 1])
    requires Spans(table)
    ensures Broken(table + [x], |table|)
  {
    var next, n := table + [x], |table|;
    forall k | 0 <= k < |next| && k != n - 1 ensures next[k].block.end != next[n - 1].block.end {
      if k < n - 1 { assert next[k].block.end < next[n - 1].block.start; }
    }
  }

  lemma SealInOrder(table: seq<Sealed>, x: Sealed)
    requires InTextOrder(table) && Linked(table) && Spans(table) && Continues(table, x.block) && !HasId(table, x.id)
    ensures (InTextOrder(table + [x]) && Linked(table + [x])) || Broken(table + [x], |table|)
  {
    if table != [] {
      BeforeTotal(table[|table| - 1], x);
    }
    if table == [] || Before(table[|table| - 1], x) {
      OrderAppends(table, x);
      LinkAppends(table, x);
    } else {
      BreakAppends(table, x);
    }
  }

  lemma BeforeTransitive(x: Sealed, y: Sealed, z: Sealed)
    requires Before(x, y) && Before(y, z)
    ensures Before(x, z)
  {
    TextTransitive(Decimal.ToDecimal(x.id), Decimal.ToDecimal(y.id), Decimal.ToDecimal(z.id));
  }

  lemma SealAfterBreak(h: Hash, b: Books, x: Sealed, m: nat)
    requires Chained(h, b) && Broken(b.blocks, m) && forall n :: n in b.numbers ==> n <= x.block.end
    ensures Broken(b.blocks + [x], m)
  {
    assert WellSealed(h, b.numbers, b.blocks[m].block);
    assert b.blocks[m].block.end <= x.block.end;
  }

  lemma {:induction false} RunChains(h: Hash, accounts: Accounts, actions: seq<Action>)
    requires HexDigests(h)
    ensures Chained(h, Run(h, accounts, actions))
  {
    if actions != [] {
      var n := |actions| - 1;
      var b := Run(h, accounts, actions[..n]);
      RunChains(h, accounts, actions[..n]);
      match actions[n]
      case DoPost(d, given) => PostChains(h, accounts, b, d, given);
      case DoSeal(id) => SealChains(h, b, id);
    }
  }

  lemma PostChains(h: Hash, accounts: Accounts, b: Books, d: L.JournalDraft, given: Given)
    requires Chained(h, b)
    ensures Chained(h, AfterPost(accounts, b, d, given))
  {
    var next := AfterPost(accounts, b, d, given);
    forall k | 0 <= k < |next.blocks| ensures WellSealed(h, next.numbers, next.blocks[k].block) {
      assert WellSealed(h, b.numbers, b.blocks[k].block);
    }
  }

  // ---------------------------------------------------------------------------
  // What a block covers
  // ---------------------------------------------------------------------------

  predicate InRange(x: Block, number: nat) { x.start <= number <= x.end }

  lemma {:induction false} InsertOutside(sorted: seq<Row>, r: Row, start: int, end: int)
    requires !(start <= r.journal <= end)
    ensures Keep(Insert(sorted, r, EntryNumber()), Within(start, end)) == Keep(sorted, Within(start, end))
  {
    var n := |sorted| - 1;
    if sorted == [] || EntryNumber()(sorted[n]) <= EntryNumber()(r) {
      assert (sorted + [r])[..|sorted|] == sorted;
    } else {
      var init := Insert(sorted[..n], r, EntryNumber());
      InsertOutside(sorted[..n], r, start, end);
      assert (init + [sorted[n]])[..|init|] == init;
    }
  }

  lemma {:induction false} InsertInside(sorted: seq<Row>, r: Row, start: int, end: int)
    requires start <= r.journal <= end
    ensures |Keep(Insert(sorted, r, EntryNumber()), Within(start, end))| == |Keep(sorted, Within(start, end))| + 1
  {
    var n := |sorted| - 1;
    if sorted == [] || EntryNumber()(sorted[n]) <= EntryNumber()(r) {
      assert (sorted + [r])[..|sorted|] == sorted;
    } else {
      var init := Insert(sorted[..n], r, EntryNumber());
      InsertInside(sorted[..n], r, start, end);
      assert (init + [sorted[n]])[..|init|] == init;
    }
  }

  lemma OneMoreRow(rows: seq<Row>, r: Row)
    ensures InEntryOrder(rows + [r]) == Insert(InEntryOrder(rows), r, EntryNumber())
  {
    assert (rows + [r])[..|rows|] == rows;
  }

  /** Rows of one journal change what a range covers exactly when its number is in the range. */
  lemma {:induction false} MoreRows(rows: seq<Row>, more: seq<Row>, number: nat, x: Block)
    requires forall i :: 0 <= i < |more| ==> more[i].journal == number
    ensures !InRange(x, number) ==> Covered(InEntryOrder(rows + more), x) == Covered(InEntryOrder(rows), x)
    ensures InRange(x, number) ==> |Covered(InEntryOrder(rows + more), x)| == |Covered(InEntryOrder(rows), x)| + |more|
  {
    if more == [] {
      assert rows + more == rows;
    } else {
      var n := |more| - 1;
      var most := rows + more[..n];
      MoreRows(rows, more[..n], number, x);
      assert rows + more == most + [more[n]];
      OneMoreRow(most, more[n]);
      CoversOneMore(InEntryOrder(most), more[n], x);
    }
  }

  lemma CoversOneMore(sorted: seq<Row>, r: Row, x: Block)
    ensures var next := Insert(sorted, r, EntryNumber());
            if InRange(x, r.journal) then |Covered(next, x)| == |Covered(sorted, x)| + 1 else Covered(next, x) == Covered(sorted, x)
  {
    if InRange(x, r.journal) {
      InsertInside(sorted, r, x.start, x.end);
    } else {
      InsertOutside(sorted, r, x.start, x.end);
    }
  }

  ghost predicate Fits(h: Hash, b: Books, x: Block) {
    var covered := Covered(InEntryOrder(b.rows), x);
    |covered| == x.entryCount && MerkleRoot(h, Leaves(h, covered)) == x.merkleRoot
  }

  ghost predicate Overfull(b: Books, x: Block) { |Covered(InEntryOrder(b.rows), x)| > x.entryCount }

  predicate Holds(table: seq<Sealed>, k: int, number: nat) { 0 <= k < |table| && InRange(table[k].block, number) }

  /** A journal arrives with a number that some block's range already covers. */
  ghost predicate FallsIn(b: Books, a: Action) {
    a.DoPost? && Creates(b, a.draft) && exists k :: Holds(b.blocks, k, a.given.number)
  }

  /** At some step of the run one does. */
  ghost predicate Late(h: Hash, accounts: Accounts, actions: seq<Action>) {
    && actions != []
    && var init, last := actions[..|actions| - 1], actions[|actions| - 1];
       Late(h, accounts, init) || FallsIn(Run(h, accounts, init), last)
  }

  /** Blocks fit their rows until a late journal arrives; from then on one holds too many. */
  ghost predicate Counted(h: Hash, b: Books, late: bool) {
    && (forall k :: 0 <= k < |b.blocks| ==> Fits(h, b, b.blocks[k].block) || Overfull(b, b.blocks[k].block))
    && (!late ==> forall k :: 0 <= k < |b.blocks| ==> Fits(h, b, b.blocks[k].block))
    && (late ==> exists k :: 0 <= k < |b.blocks| && Overfull(b, b.blocks[k].block))
  }

  lemma CreatedHasEntries(b: Books, d: L.JournalDraft)
    requires Creates(b, d)
    ensures L.Posting(b.journals, d).journals[|b.journals|].entries != []
  {
  }

  lemma PostCounts(h: Hash, accounts: Accounts, b: Books, d: L.JournalDraft, given: Given, late: bool)
    requires Counted(h, b, late)
    ensures Counted(h, AfterPost(accounts, b, d, given), late || FallsIn(b, DoPost(d, given)))
  {
    if Creates(b, d) {
      var next := AfterPost(accounts, b, d, given);
      var j := L.Posting(b.journals, d).journals[|b.journals|];
      CreatedHasEntries(b, d);
      forall k | 0 <= k < |b.blocks|
        ensures var x := b.blocks[k].block;
                && (!InRange(x, given.number) ==> Covered(InEntryOrder(next.rows), x) == Covered(InEntryOrder(b.rows), x))
                && (InRange(x, given.number) ==> |Covered(InEntryOrder(next.rows), x)| > |Covered(InEntryOrder(b.rows), x)|)
      {
        MoreRows(b.rows, NewRows(accounts, j.entries, given), given.number, b.blocks[k].block);
      }
      PostedCounts(h, b, next, given.number, late);
    }
  }

  lemma PostedCounts(h: Hash, b: Books, next: Books, number: nat, late: bool)
    requires Counted(h, b, late) && next.blocks == b.blocks
    requires forall k :: 0 <= k < |b.blocks| ==>
               var x := b.blocks[k].block;
               && (!InRange(x, number) ==> Covered(InEntryOrder(next.rows), x) == Covered(InEntryOrder(b.rows), x))
               && (InRange(x, number) ==> |Covered(InEntryOrder(next.rows), x)| > |Covered(InEntryOrder(b.rows), x)|)
    ensures Counted(h, next, late || exists k :: Holds(b.blocks, k, number))
  {
    forall k | 0 <= k < |b.blocks|
      ensures var x := b.blocks[k].block;
              && (InRange(x, number) || Overfull(b, x) ==> Overfull(next, x))
              && (!InRange(x, number) && Fits(h, b, x) ==> Fits(h, next, x))
    {
    }
    if k :| Holds(b.blocks, k, number) {
      assert Overfull(next, next.blocks[k].block);
    }
    if late {
      var k :| 0 <= k < |b.blocks| && Overfull(b, b.blocks[k].block);
      assert Overfull(next, next.blocks[k].block);
    }
    forall k | 0 <= k < |b.blocks| ensures InRange(b.blocks[k].block, number) ==> Holds(b.blocks, k, number) {
    }
  }

  lemma FittingAppends(h: Hash, b: Books, x: Sealed, late: bool)
    requires Counted(h, b, late) && Fits(h, b, x.block)
    ensures Counted(h, b.(blocks := b.blocks + [x]), late)
  {
    var next := b.(blocks := b.blocks + [x]);
    forall k | 0 <= k < |next.blocks|
      ensures Fits(h, next, next.blocks[k].block) || Overfull(next, next.blocks[k].block)
      ensures !late ==> Fits(h, next, next.blocks[k].block)
    {
      assert next.blocks[k] == if k < |b.blocks| then b.blocks[k] else x;
    }
    if late {
      var k :| 0 <= k < |b.blocks| && Overfull(b, b.blocks[k].block);
      assert Overfull(next, next.blocks[k].block);
    }
  }

  lemma SealCounts(h: Hash, b: Books, id: nat, late: bool)
    requires HexDigests(h) && Chained(h, b) && Counted(h, b, late)
    ensures Counted(h, AfterSeal(h, b, id), late)
  {
    if Sealing(h, b).Some? && !HasId(b.blocks, id) {
      SealingIsWellSealed(h, b);
      FittingAppends(h, b, Sealed(id, Sealing(h, b).value), late);
    }
  }

  lemma {:induction false} RunCounts(h: Hash, accounts: Accounts, actions: seq<Action>)
    requires HexDigests(h)
    ensures Counted(h, Run(h, accounts, actions), Late(h, accounts, actions))
  {
    if actions != [] {
      var n := |actions| - 1;
      var b := Run(h, accounts, actions[..n]);
      RunCounts(h, accounts, actions[..n]);
      RunChains(h, accounts, actions[..n]);
      match actions[n]
      case DoPost(d, given) => PostCounts(h, accounts, b, d, given, Late(h, accounts, actions[..n]));
      case DoSeal(id) => SealCounts(h, b, id, Late(h, accounts, actions[..n]));
    }
  }

  // ---------------------------------------------------------------------------
  // When the blocks verify
  // ---------------------------------------------------------------------------

  function HeadersOf(table: seq<Sealed>): set<string> { set x | x in table :: Header(x.block) }

  /** What verification answers: the blocks are walked in the order in which they are read. */
  predicate LedgerVerifies(h: Hash, b: Books) { Verifies(h, InEntryOrder(b.rows), BlocksOf(Reading(b.blocks))) }

  /** Where a break is, the block read next to it has another hash. */
  lemma BrokenFails(h: Hash, b: Books, m: nat)
    requires HexDigests(h) && CollisionFree(h, HeadersOf(b.blocks)) && Chained(h, b) && Broken(b.blocks, m)
    ensures !LedgerVerifies(h, b)
  {
    var read, z := Reading(b.blocks), b.blocks[m];
    ReadingSorts(b.blocks);
    assert z in b.blocks;
    var p :| 0 <= p < |read| && read[p] == z;
    if LedgerVerifies(h, b) {
      OkAt(h, InEntryOrder(b.rows), BlocksOf(read), p);
      assert BlocksOf(read)[p] == z.block;
      WrongTip(h, b, m, p);
    }
  }

  /** The block read just before block `m` is not the one it continues. */
  lemma ReadBefore(table: seq<Sealed>, m: nat, p: nat)
    requires Broken(table, m) && 0 < p < |table| && Reading(table)[p] == table[m]
    ensures Reading(table)[p - 1] in table && Reading(table)[p - 1] != table[m - 1]
  {
    ReadingSorts(table);
    assert Reading(table)[p - 1] in Reading(table);
  }

  lemma WrongTip(h: Hash, b: Books, m: nat, p: nat)
    requires HexDigests(h) && CollisionFree(h, HeadersOf(b.blocks)) && AllWellSealed(h, b) && Broken(b.blocks, m)
    requires p < |b.blocks| && Reading(b.blocks)[p] == b.blocks[m]
    ensures Tip(BlocksOf(Reading(b.blocks))[..p]) != b.blocks[m].block.previous
  {
    var y := b.blocks[m - 1];
    assert WellSealed(h, b.numbers, y.block);
    if p == 0 {
      assert y in b.blocks && Header(y.block) in HeadersOf(b.blocks);
    } else {
      var x := Reading(b.blocks)[p - 1];
      ReadBefore(b.blocks, m, p);
      TipOfPrefix(Reading(b.blocks), p);
      if x.block.current == y.block.current {
        SameEnd(h, b, x, y);
        SameEndIsSame(b.blocks, m, x);
      }
    }
  }

  lemma TipOfPrefix(read: seq<Sealed>, p: nat)
    requires 0 < p <= |read|
    ensures Tip(BlocksOf(read)[..p]) == read[p - 1].block.current
  {
  }

  lemma SameEnd(h: Hash, b: Books, x: Sealed, y: Sealed)
    requires CollisionFree(h, HeadersOf(b.blocks)) && x in b.blocks && y in b.blocks && x.block.current == y.block.current
    requires AllWellSealed(h, b)
    ensures x.block.end == y.block.end
  {
    assert WellSealed(h, b.numbers, x.block) && WellSealed(h, b.numbers, y.block);
    assert Header(x.block) in HeadersOf(b.blocks) && Header(y.block) in HeadersOf(b.blocks);
    HeaderInjective(x.block, y.block);
  }

  lemma SameEndIsSame(table: seq<Sealed>, m: nat, x: Sealed)
    requires Broken(table, m) && x in table && x.block.end == table[m - 1].block.end
    ensures x == table[m - 1]
  {
  }

  ghost predicate OkIn(h: Hash, rows: seq<Row>, blocks: seq<Block>, k: nat)
    requires k < |blocks|
  {
    BlockOk(h, rows, Tip(blocks[..k]), blocks[k])
  }

  lemma OkAppends(h: Hash, rows: seq<Row>, front: seq<Block>, x: Block, whole: seq<Block>)
    requires Verifies(h, rows, front) && BlockOk(h, rows, Tip(front), x) && whole == front + [x]
    ensures Verifies(h, rows, whole)
  {
    assert whole[..|whole| - 1] == front;
  }

  lemma FittingIsOk(h: Hash, b: Books, k: nat)
    requires AllWellSealed(h, b) && Linked(b.blocks) && k < |b.blocks| && Fits(h, b, b.blocks[k].block)
    ensures OkIn(h, InEntryOrder(b.rows), BlocksOf(b.blocks), k)
  {
    assert WellSealed(h, b.numbers, b.blocks[k].block);
    if k > 0 { TipOfPrefix(b.blocks, k); }
  }

  lemma PrefixGrows(blocks: seq<Block>, k: nat)
    requires k < |blocks|
    ensures blocks[..k + 1] == blocks[..k] + [blocks[k]]
  {
  }

  lemma {:induction false} FittingVerifies(h: Hash, b: Books, n: nat)
    requires AllWellSealed(h, b) && Linked(b.blocks) && n <= |b.blocks|
    requires forall k :: 0 <= k < |b.blocks| ==> Fits(h, b, b.blocks[k].block)
    ensures Verifies(h, InEntryOrder(b.rows), BlocksOf(b.blocks)[..n])
  {
    if n > 0 {
      FittingVerifies(h, b, n - 1);
      FittingIsOk(h, b, n - 1);
      var blocks := BlocksOf(b.blocks);
      PrefixGrows(blocks, n - 1);
      OkAppends(h, InEntryOrder(b.rows), blocks[..n - 1], blocks[n - 1], blocks[..n]);
    }
  }

  lemma FittingLedgerVerifies(h: Hash, b: Books)
    requires AllWellSealed(h, b) && InTextOrder(b.blocks) && Linked(b.blocks)
    requires forall k :: 0 <= k < |b.blocks| ==> Fits(h, b, b.blocks[k].block)
    ensures LedgerVerifies(h, b)
  {
    FittingVerifies(h, b, |b.blocks|);
    var blocks := BlocksOf(b.blocks);
    assert Verifies(h, InEntryOrder(b.rows), blocks[..|blocks|]) && blocks[..|blocks|] == blocks;
    InOrderReadsAsIs(b.blocks);
  }

  lemma OverfullFails(h: Hash, b: Books, k: nat)
    requires k < |b.blocks| && Overfull(b, b.blocks[k].block)
    ensures !LedgerVerifies(h, b)
  {
    var read := Reading(b.blocks);
    ReadingSorts(b.blocks);
    assert b.blocks[k] in b.blocks;
    var p :| 0 <= p < |read| && read[p] == b.blocks[k];
    if LedgerVerifies(h, b) {
      OkAt(h, InEntryOrder(b.rows), BlocksOf(read), p);
    }
  }

  /**
   After any run of posts and seals the blocks verify if and only if they were sealed in the order in which their ids are
   read, as texts, and no journal arrived with a number in a sealed range.
   */
  lemma BlocksVerifyExactly(h: Hash, accounts: Accounts, actions: seq<Action>)
    requires HexDigests(h) && CollisionFree(h, HeadersOf(Run(h, accounts, actions).blocks))
    ensures var b := Run(h, accounts, actions);
            LedgerVerifies(h, b) <==> InTextOrder(b.blocks) && !Late(h, accounts, actions)
  {
    var b := Run(h, accounts, actions);
    RunChains(h, accounts, actions);
    RunCounts(h, accounts, actions);
    if InTextOrder(b.blocks) && Linked(b.blocks) {
      if Late(h, accounts, actions) {
        var k :| 0 <= k < |b.blocks| && Overfull(b, b.blocks[k].block);
        OverfullFails(h, b, k);
      } else {
        FittingLedgerVerifies(h, b);
      }
    } else {
      var m :| Broken(b.blocks, m);
      InOrderIsNotBroken(b.blocks, m);
      BrokenFails(h, b, m);
    }
  }

  /** With ids counted from 1 that is fewer than ten blocks. */
  lemma CountedBlocksVerifyBelowTen(h: Hash, accounts: Accounts, actions: seq<Action>)
    requires HexDigests(h) && CollisionFree(h, HeadersOf(Run(h, accounts, actions).blocks))
    requires Consecutive(Run(h, accounts, actions).blocks)
    ensures var b := Run(h, accounts, actions);
            LedgerVerifies(h, b) <==> |b.blocks| < 10 && !Late(h, accounts, actions)
  {
    BlocksVerifyExactly(h, accounts, actions);
    CountedIdsAreInOrderBelowTen(Run(h, accounts, actions).blocks);
  }

  /**
   From ten to eighty-nine blocks every further seal continues the ninth: it forks from the tenth and seals that one's
   range again, with new journals or without.
   */
  lemma SealsAgainAfterNinth(h: Hash, accounts: Accounts, actions: seq<Action>, id: nat)
    requires HexDigests(h) && Consecutive(Run(h, accounts, actions).blocks)
    requires 10 <= |Run(h, accounts, actions).blocks| < 90 && !HasId(Run(h, accounts, actions).blocks, id)
    ensures var b := Run(h, accounts, actions);
            var next := AfterSeal(h, b, id);
            && |next.blocks| == |b.blocks| + 1
            && var x := next.blocks[|b.blocks|].block;
               && x.previous == b.blocks[8].block.current == b.blocks[9].block.previous
               && x.start <= b.blocks[9].block.start && b.blocks[9].block.end <= x.end
  {
    var b := Run(h, accounts, actions);
    RunChains(h, accounts, actions);
    NinthIsReadLast(b.blocks);
    RunTenth(h, accounts, actions);
    assert WellSealed(h, b.numbers, b.blocks[9].block);
    var read := Reading(b.blocks);
    assert End(read) == b.blocks[8].block.end;
    assert b.blocks[9].block.start in Keep(b.numbers, Above(End(read)));
    SealingRange(h, b);
  }

  /** The tenth block was itself sealed in order, after the ninth. */
  ghost predicate TenthContinues(table: seq<Sealed>) {
    |table| >= 10 && Consecutive(table) ==>
      table[9].block.previous == table[8].block.current && table[8].block.end < table[9].block.start
  }

  lemma NextTenth(h: Hash, accounts: Accounts, b: Books, a: Action)
    requires TenthContinues(b.blocks)
    ensures TenthContinues(Next(h, accounts, b, a).blocks)
  {
    NextAppends(h, accounts, b, a);
    var next := Next(h, accounts, b, a).blocks;
    if next != b.blocks && Consecutive(next) {
      assert next[..|b.blocks|] == b.blocks;
      assert Consecutive(b.blocks);
      if |b.blocks| == 9 { SealTenth(h, b, a.id); }
    }
  }

  lemma {:induction false} RunTenth(h: Hash, accounts: Accounts, actions: seq<Action>)
    ensures TenthContinues(Run(h, accounts, actions).blocks)
  {
    if actions != [] {
      RunTenth(h, accounts, actions[..|actions| - 1]);
      NextTenth(h, accounts, Run(h, accounts, actions[..|actions| - 1]), actions[|actions| - 1]);
    }
  }

  /** A step adds at most one block, at the end of the table. */
  lemma NextAppends(h: Hash, accounts: Accounts, b: Books, a: Action)
    ensures var next := Next(h, accounts, b, a);
            || next.blocks == b.blocks
            || (a.DoSeal? && next == AfterSeal(h, b, a.id) && Sealing(h, b).Some?
                && next.blocks == b.blocks + [Sealed(a.id, Sealing(h, b).value)])
  {
  }

  lemma SealTenth(h: Hash, b: Books, id: nat)
    requires |b.blocks| == 9 && Consecutive(b.blocks) && Sealing(h, b).Some?
    ensures var x := Sealing(h, b).value; x.previous == b.blocks[8].block.current && b.blocks[8].block.end < x.start
  {
    CountedIdsAreInOrderBelowTen(b.blocks);
    LastReadInOrder(b.blocks);
    SealingRange(h, b);
  }

  // ---------------------------------------------------------------------------
  // Which journals are in a block
  // ---------------------------------------------------------------------------

  /** A journal arrives with a number that sealing has gone past without covering it. */
  ghost predicate SlipsBetween(b: Books, a: Action) {
    && a.DoPost? && Creates(b, a.draft)
    && a.given.number <= End(b.blocks) && forall k :: !Holds(b.blocks, k, a.given.number)
  }

  /** At some step of the run one does. */
  ghost predicate Missed(h: Hash, accounts: Accounts, actions: seq<Action>) {
    && actions != []
    && var init, last := actions[..|actions| - 1], actions[|actions| - 1];
       Missed(h, accounts, init) || SlipsBetween(Run(h, accounts, init), last)
  }

  ghost predicate Placed(b: Books, number: nat) { number <= End(b.blocks) ==> exists k :: Holds(b.blocks, k, number) }

  ghost predicate Partitioned(b: Books, missed: bool) {
    (forall n :: n in b.numbers ==> Placed(b, n)) <==> !missed
  }

  lemma SealPartitions(h: Hash, b: Books, id: nat, missed: bool)
    requires HexDigests(h) && Chained(h, b) && InTextOrder(AfterSeal(h, b, id).blocks) && Partitioned(b, missed)
    ensures InTextOrder(b.blocks) && Partitioned(AfterSeal(h, b, id), missed)
  {
    var next := AfterSeal(h, b, id);
    if next != b {
      assert next.blocks[..|b.blocks|] == b.blocks;
      InOrderReadsAsIs(b.blocks);
      SealingRange(h, b);
      var last := |b.blocks|;
      forall n | n in b.numbers ensures Placed(next, n) <==> Placed(b, n) {
        SealPlaces(b, next, n);
      }
    }
  }

  lemma SealPlaces(b: Books, next: Books, n: nat)
    requires |next.blocks| == |b.blocks| + 1 && next.blocks[..|b.blocks|] == b.blocks
    requires var x := next.blocks[|b.blocks|].block;
             End(b.blocks) < x.start && n <= x.end && (n > End(b.blocks) ==> x.start <= n)
    ensures Placed(next, n) <==> Placed(b, n)
  {
    var last := |b.blocks|;
    if n > End(b.blocks) {
      assert Holds(next.blocks, last, n);
    } else {
      if k :| Holds(b.blocks, k, n) { assert next.blocks[k] == b.blocks[k]; assert Holds(next.blocks, k, n); }
      if k :| Holds(next.blocks, k, n) { assert k < last; assert next.blocks[k] == b.blocks[k]; assert Holds(b.blocks, k, n); }
    }
  }

  lemma PostPartitions(accounts: Accounts, b: Books, d: L.JournalDraft, given: Given, missed: bool)
    requires Partitioned(b, missed)
    ensures Partitioned(AfterPost(accounts, b, d, given), missed || SlipsBetween(b, DoPost(d, given)))
  {
    var next := AfterPost(accounts, b, d, given);
    if Creates(b, d) {
      assert next.numbers[|b.numbers|] == given.number;
      forall n | n in b.numbers ensures n in next.numbers && (Placed(next, n) <==> Placed(b, n)) {
      }
      assert Placed(next, given.number) <==> !SlipsBetween(b, DoPost(d, given));
    }
  }

  lemma {:induction false} RunPartitions(h: Hash, accounts: Accounts, actions: seq<Action>)
    requires HexDigests(h) && InTextOrder(Run(h, accounts, actions).blocks)
    ensures Partitioned(Run(h, accounts, actions), Missed(h, accounts, actions))
  {
    if actions != [] {
      var n := |actions| - 1;
      var b := Run(h, accounts, actions[..n]);
      assert Run(h, accounts, actions).blocks[..|b.blocks|] == b.blocks;
      RunPartitions(h, accounts, actions[..n]);
      RunChains(h, accounts, actions[..n]);
      match actions[n]
      case DoPost(d, given) => PostPartitions(accounts, b, d, given, Missed(h, accounts, actions[..n]));
      case DoSeal(id) => SealPartitions(h, b, id, Missed(h, accounts, actions[..n]));
    }
  }

  /**
   While blocks are sealed in text order no two ranges share a journal, and every journal up to the last end is in one
   block if and only if none arrived with a number between two ranges.
   */
  lemma RangesPartitionExactly(h: Hash, accounts: Accounts, actions: seq<Action>)
    requires HexDigests(h) && InTextOrder(Run(h, accounts, actions).blocks)
    ensures var b := Run(h, accounts, actions);
            && (forall j, k, n :: Holds(b.blocks, j, n) && Holds(b.blocks, k, n) ==> j == k)
            && ((forall n :: n in b.numbers && n <= End(b.blocks) ==> exists k :: Holds(b.blocks, k, n))
                <==> !Missed(h, accounts, actions))
  {
    var b := Run(h, accounts, actions);
    RunPartitions(h, accounts, actions);
    RunChains(h, accounts, actions);
    InOrderIsLinked(b.blocks);
    LinkedAreDisjoint(b.blocks);
    PartitionedMeans(b, Missed(h, accounts, actions));
  }

  lemma InOrderIsLinked(table: seq<Sealed>)
    requires Ordered(table) && InTextOrder(table)
    ensures Linked(table)
  {
    if m :| Broken(table, m) {
      InOrderIsNotBroken(table, m);
    }
  }

  lemma LinkedAreDisjoint(table: seq<Sealed>)
    requires Linked(table)
    ensures forall j, k, n :: Holds(table, j, n) && Holds(table, k, n) ==> j == k
  {
  }

  lemma PartitionedMeans(b: Books, missed: bool)
    requires Partitioned(b, missed)
    ensures (forall n :: n in b.numbers && n <= End(b.blocks) ==> exists k :: Holds(b.blocks, k, n)) <==> !missed
  {
    assert (forall n :: n in b.numbers ==> Placed(b, n))
      <==> (forall n :: n in b.numbers && n <= End(b.blocks) ==> exists k :: Holds(b.blocks, k, n)) by {
      if forall n :: n in b.numbers && n <= End(b.blocks) ==> exists k :: Holds(b.blocks, k, n) {
        forall n | n in b.numbers ensures Placed(b, n) {
        }
      }
      if forall n :: n in b.numbers ==> Placed(b, n) {
        forall n | n in b.numbers && n <= End(b.blocks) ensures exists k :: Holds(b.blocks, k, n) {
          assert Placed(b, n);
        }
      }
    }
  }

  // ---------------------------------------------------------------------------
  // The procedures
  // ---------------------------------------------------------------------------

  lemma LevelStep(h: Hash, hs: seq<string>, i: nat)
    requires i < |hs|
    ensures var right := if i + 1 < |hs| then hs[i + 1] else hs[i];
            var next := if i + 2 <= |hs| then i + 2 else |hs|;
            Level(h, hs[i..]) == [h(hs[i] + right)] + Level(h, hs[next..])
  {
    if i + 1 < |hs| {
      assert hs[i..][2..] == hs[i + 2..];
    } else {
      assert hs[i..] == [hs[i]];
    }
  }

  method NextLevel(h: Hash, hs: seq<string>) returns (next: seq<string>)
    ensures next == Level(h, hs)
  {
    next := [];
    var i := 0;
    ghost var done := 0;
    assert hs[0..] == hs;
    while i < |hs|
      invariant 0 <= i && done == (if i < |hs| then i else |hs|)
      invariant next + Level(h, hs[done..]) == Level(h, hs)
    {
      LevelStep(h, hs, i);
      var left := hs[i];
      var right := if i + 1 < |hs| then hs[i + 1] else left;
      ghost var before := next;
      next := next + [h(left + right)];
      i := i + 2;
      done := if i < |hs| then i else |hs|;
      assert before + ([h(left + right)] + Level(h, hs[done..])) == next + Level(h, hs[done..]);
    }
    assert hs[done..] == [];
  }

  method ComputeMerkleRoot(h: Hash, hashes: seq<string>) returns (root: string)
    ensures root == MerkleRoot(h, hashes)
  {
    if |hashes| == 0 { return ZERO_HASH; }
    var currentLevel := hashes;
    while |currentLevel| > 1
      invariant |currentLevel| >= 1 && MerkleRoot(h, currentLevel) == MerkleRoot(h, hashes)
      decreases |currentLevel|
    {
      currentLevel := NextLevel(h, currentLevel);
    }
    return currentLevel[0];
  }

  class BlockLedger {
    const h: Hash
    const accounts: Accounts
    const ledger: L.LedgerService
    var numbers: seq<nat>
    var rows: seq<Row>
    var blocks: seq<Sealed>

    ghost function State(): Books
      reads this, ledger
    {
      Books(ledger.journals, numbers, rows, blocks)
    }

    constructor (hash: Hash, accountIds: Accounts)
      ensures h == hash && accounts == accountIds && fresh(ledger) && ledger.Valid() && State() == Books([], [], [], [])
    {
      h, accounts := hash, accountIds;
      ledger := new L.LedgerService();
      numbers, rows, blocks := [], [], [];
    }

    method Post(d: L.JournalDraft, given: Given) returns (r: L.PostResult)
      requires ledger.Valid()
      modifies this, ledger
      ensures ledger.Valid() && State() == AfterPost(accounts, old(State()), d, given)
      ensures L.Outcome(ledger.journals, r) == L.Posting(old(ledger.journals), d)
    {
      var before := |ledger.journals|;
      r := ledger.Post(d);
      if r.Posted? && r.created {
        numbers := numbers + [given.number];
        AppendRows(ledger.journals[before].entries, given);
      }
    }

    method AppendRows(es: seq<L.Entry>, given: Given)
      modifies this`rows
      ensures rows == old(rows) + NewRows(accounts, es, given)
    {
      for i := 0 to |es|
        invariant rows == old(rows) + NewRows(accounts, es[..i], given)
      {
        assert es[..i + 1][..i] == es[..i];
        rows := rows + [ToRow(accounts, es[i], given, i)];
      }
      assert es[..|es|] == es;
    }

    /** The link to the block read before, the entry count, the Merkle root and the block's own hash. */
    method Mismatches(ordered: seq<Row>, previous: string, block: Block) returns (errors: nat)
      ensures errors == 0 <==> BlockOk(h, ordered, previous, block)
    {
      errors := 0;
      if block.previous != previous { errors := errors + 1; }
      var covered := Covered(ordered, block);
      if |covered| != block.entryCount { errors := errors + 1; }
      var root := ComputeMerkleRoot(h, Leaves(h, covered));
      if root != block.merkleRoot { errors := errors + 1; }
      if h(Header(block)) != block.current { errors := errors + 1; }
    }

    /** The number of mismatches found, as the list of messages would count them. */
    method VerifyLedgerBlocks() returns (valid: bool, errors: nat)
      ensures valid <==> LedgerVerifies(h, State())
      ensures valid <==> errors == 0
    {
      var read, ordered := Reading(blocks), InEntryOrder(rows);
      ghost var all := BlocksOf(read);
      var prevBlockHash := ZERO_HASH;
      errors := 0;
      for b := 0 to |read|
        invariant prevBlockHash == Tip(all[..b])
        invariant errors == 0 <==> Verifies(h, ordered, all[..b])
      {
        var block := read[b].block;
        assert all[..b + 1][..b] == all[..b];
        var found := Mismatches(ordered, prevBlockHash, block);
        errors := errors + found;
        prevBlockHash := block.current;
      }
      assert all[..|read|] == all;
      valid := errors == 0;
    }

    method BuildBlock(previous: string, start: int, end: int) returns (block: Block)
      ensures block == NewBlock(h, InEntryOrder(rows), previous, start, end)
    {
      var covered := Keep(InEntryOrder(rows), Within(start, end));
      var root := ComputeMerkleRoot(h, Leaves(h, covered));
      block := Block(start, end, |covered|, previous, root, "");
      block := block.(current := h(Header(block)));
    }

    /** The new block, or None when no journal is numbered above the end of the last block read. */
    method SealLedgerBlock(id: nat) returns (sealed: Option<Block>)
      requires !HasId(blocks, id)
      modifies this`blocks
      ensures State() == AfterSeal(h, old(State()), id)
      ensures blocks == if sealed.None? then old(blocks) else old(blocks) + [Sealed(id, sealed.value)]
    {
      var read := Reading(blocks);
      var lastSeq := if |read| == 0 then 0 else read[|read| - 1].block.end;
      var prevHash := if |read| == 0 then ZERO_HASH else read[|read| - 1].block.current;
      var unsealed := Keep(numbers, Above(lastSeq));
      if |unsealed| == 0 { return None; }
      var block := BuildBlock(prevHash, Least(unsealed), Greatest(unsealed));
      blocks := blocks + [Sealed(id, block)];
      return Some(block);
    }
  }
}
