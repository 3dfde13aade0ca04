/** What is hashed, letter by letter and level by level, and what a seal writes, said of the numbers and rows themselves. */
module SealAnswers {
  import opened Basics
  import opened Sums
  import opened Sequences
  import opened Decimal
  import opened BlockChain
  import opened BlockOrder
  import opened LedgerBlocks

  // ---------------------------------------------------------------------------
  // Texts and levels
  // ---------------------------------------------------------------------------

  lemma JoinStep(parts: seq<string>, last: string, separator: char)
    requires parts != []
    ensures Join(parts + [last], separator) == Join(parts, separator) + [separator] + last
  {
    assert (parts + [last])[..|parts|] == parts;
  }

  lemma Join5(a: string, b: string, c: string, d: string, e: string)
    ensures Join([a, b, c, d, e], '|') == a + "|" + b + "|" + c + "|" + d + "|" + e
  {
    JoinStep([a], b, '|');
    JoinStep([a, b], c, '|');
    JoinStep([a, b, c], d, '|');
    JoinStep([a, b, c, d], e, '|');
    assert [a] + [b] == [a, b] && [a, b] + [c] == [a, b, c] && [a, b, c] + [d] == [a, b, c, d] && [a, b, c, d] + [e] == [a, b, c, d, e];
  }

  /** The text of an entry and of a header: every field, in this order, between bars. */
  lemma HashedTexts(e: EntryRow, b: Block)
    ensures Canonical(e) == e.id + "|" + e.journalId + "|" + e.accountId + "|" + ToDecimal(e.debit) + "|" + ToDecimal(e.credit)
                            + "|" + CurrencyName(e.currency) + "|" + BucketName(e.bucket) + "|" + ToDecimal(e.sequence)
    ensures Header(b) == b.previous + "|" + b.merkleRoot + "|" + IntText(b.start) + "|" + IntText(b.end) + "|" + IntText(b.entryCount)
  {
    Join5(b.previous, b.merkleRoot, IntText(b.start), IntText(b.end), IntText(b.entryCount));
    var five := [e.id, e.journalId, e.accountId, ToDecimal(e.debit), ToDecimal(e.credit)];
    Join5(five[0], five[1], five[2], five[3], five[4]);
    var currency, bucket, number := CurrencyName(e.currency), BucketName(e.bucket), ToDecimal(e.sequence);
    JoinStep(five, currency, '|');
    JoinStep(five + [currency], bucket, '|');
    JoinStep(five + [currency] + [bucket], number, '|');
    assert five + [currency] + [bucket] + [number] == EntryParts(e);
  }

  lemma {:induction false} LevelAt(h: Hash, hs: seq<string>, i: nat)
    requires i < (|hs| + 1) / 2
    ensures Level(h, hs)[i] == h(hs[2 * i] + hs[if 2 * i + 1 < |hs| then 2 * i + 1 else 2 * i])
  {
    if i > 0 {
      LevelAt(h, hs[2..], i - 1);
    }
  }

  /** One leaf is its own root; more are hashed in pairs, an odd last one with itself, and so on up. */
  lemma RootOfLevels(h: Hash, hs: seq<string>, up: seq<string>)
    requires hs != []
    requires |up| == (|hs| + 1) / 2
    requires forall i :: 0 <= i < |up| ==> up[i] == h(hs[2 * i] + hs[if 2 * i + 1 < |hs| then 2 * i + 1 else 2 * i])
    ensures MerkleRoot(h, hs) == if |hs| == 1 then hs[0] else MerkleRoot(h, up)
  {
    forall i | 0 <= i < |up| ensures up[i] == Level(h, hs)[i] { LevelAt(h, hs, i); }
    assert up == Level(h, hs);
  }

  // ---------------------------------------------------------------------------
  // A seal
  // ---------------------------------------------------------------------------

  function CountIn(start: int, end: int): Row -> int { (r: Row) => if start <= r.journal && r.journal <= end then 1 else 0 }

  /** The rows of the range in entry order, with their hashes. */
  ghost predicate Leaved(h: Hash, b: Books, x: Block, covered: seq<Row>, leaves: seq<string>) {
    && (forall r :: r in covered <==> r in b.rows && x.start <= r.journal <= x.end)
    && |covered| == x.entryCount == Sum(b.rows, CountIn(x.start, x.end))
    && (forall i, j :: 0 <= i < j < |covered| ==> covered[i].entry.sequence <= covered[j].entry.sequence)
    && |leaves| == |covered| && forall i :: 0 <= i < |leaves| ==> leaves[i] == h(Canonical(covered[i].entry))
  }

  lemma {:induction false} LeavesAt(h: Hash, rows: seq<Row>)
    ensures forall i :: 0 <= i < |rows| ==> Leaves(h, rows)[i] == h(Canonical(rows[i].entry))
  {
    if rows != [] {
      LeavesAt(h, rows[..|rows| - 1]);
    }
  }

  lemma {:induction false} KeptCount(rows: seq<Row>, start: int, end: int)
    ensures |Keep(rows, Within(start, end))| == Sum(rows, CountIn(start, end))
  {
    if rows != [] {
      KeptCount(rows[..|rows| - 1], start, end);
    }
  }

  lemma NewBlockAnswers(h: Hash, b: Books, previous: string, start: int, end: int)
    ensures var x := NewBlock(h, InEntryOrder(b.rows), previous, start, end);
            && x.start == start && x.end == end && x.previous == previous && x.current == h(Header(x))
            && exists covered, leaves :: Leaved(h, b, x, covered, leaves) && x.merkleRoot == MerkleRoot(h, leaves)
  {
    var x := NewBlock(h, InEntryOrder(b.rows), previous, start, end);
    var rows := InEntryOrder(b.rows);
    var covered := Keep(rows, Within(start, end));
    SortIsSort(b.rows, EntryNumber());
    SortSum(b.rows, EntryNumber(), CountIn(start, end));
    KeptCount(rows, start, end);
    KeepSorted(rows, Within(start, end), EntryNumber());
    forall i, j | 0 <= i < j < |covered| ensures covered[i].entry.sequence <= covered[j].entry.sequence {
      assert EntryNumber()(covered[i]) <= EntryNumber()(covered[j]);
    }
    LeavesAt(h, covered);
    assert Leaved(h, b, x, covered, Leaves(h, covered));
  }

  /** Where the next block starts: after the end of the last block read, and on its hash. */
  function LastEnd(read: seq<Sealed>): int { if |read| == 0 then 0 else read[|read| - 1].block.end }

  function LastHash(read: seq<Sealed>): string { if |read| == 0 then Zeros(64) else read[|read| - 1].block.current }

  /** A seal takes every number above the last end, or writes nothing when there is none. */
  lemma SealingAnswers(h: Hash, b: Books)
    ensures var read := Reading(b.blocks);
            match Sealing(h, b)
            case None => forall n :: n in b.numbers ==> n <= LastEnd(read)
            case Some(x) =>
              && (exists m, n :: m in b.numbers && n in b.numbers && m as int == x.start && n as int == x.end)
              && LastEnd(read) < x.start && (forall n :: n in b.numbers && n > LastEnd(read) ==> x.start <= n <= x.end)
              && x.previous == LastHash(read) && x.current == h(Header(x))
              && exists covered, leaves :: Leaved(h, b, x, covered, leaves) && x.merkleRoot == MerkleRoot(h, leaves)
  {
    var read := Reading(b.blocks);
    var unsealed := Keep(b.numbers, Above(End(read)));
    if unsealed != [] {
      NewBlockAnswers(h, b, Tip(BlocksOf(read)), Least(unsealed), Greatest(unsealed));
    } else {
      forall n | n in b.numbers ensures n <= LastEnd(read) {
        assert n !in unsealed;
      }
    }
  }

  /** A seal adds its block under a new id and changes nothing else. */
  lemma SealStores(h: Hash, b: Books, id: nat)
    ensures var known := exists k :: 0 <= k < |b.blocks| && b.blocks[k].id == id;
            AfterSeal(h, b, id)
              == match Sealing(h, b)
                 case None => b
                 case Some(x) => if known then b else b.(blocks := b.blocks + [Sealed(id, x)])
  {
  }
}
