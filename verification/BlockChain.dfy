/** Ledger blocks: Merkle roots over entry hashes, chained headers, what verification proves and what sealing keeps. */
module BlockChain {
  import opened Basics
  import opened Sums
  import opened Sequences
  import opened Decimal
  import MoneyMath
  import L = Ledger

  type Hash = string -> string

  /** The genesis marker: 64 zeros. */
  const ZERO_HASH := Zeros(64)

  datatype EntryRow = EntryRow(
    id: string, journalId: string, accountId: string, debit: nat, credit: nat,
    currency: MoneyMath.Currency, bucket: L.Bucket, sequence: nat)

  /** An entry and the sequence number of its journal; rows are in entry order. */
  datatype Row = Row(journal: nat, entry: EntryRow)

  datatype Block = Block(start: int, end: int, entryCount: int, previous: string, merkleRoot: string, current: string)

  // ---------------------------------------------------------------------------
  // Hashing
  // ---------------------------------------------------------------------------

  function CurrencyName(c: MoneyMath.Currency): string {
    match c
    case TOMAN => "TOMAN"
    case GRAM => "GRAM"
  }

  function BucketName(b: L.Bucket): string {
    match b
    case AVAILABLE => "AVAILABLE"
    case PENDING => "PENDING"
    case SETTLING => "SETTLING"
    case REVIEW_HOLD => "REVIEW_HOLD"
  }

  function IntText(x: int): string { if x < 0 then "-" + ToDecimal(-x) else ToDecimal(x) }

  function EntryParts(e: EntryRow): (r: seq<string>)
    ensures |r| == 8
  {
    [e.id, e.journalId, e.accountId, ToDecimal(e.debit), ToDecimal(e.credit), CurrencyName(e.currency), BucketName(e.bucket),
     ToDecimal(e.sequence)]
  }

  function Canonical(e: EntryRow): string { Join(EntryParts(e), '|') }

  function HeaderParts(b: Block): (r: seq<string>)
    ensures |r| == 5
  {
    [b.previous, b.merkleRoot, IntText(b.start), IntText(b.end), IntText(b.entryCount)]
  }

  function Header(b: Block): string { Join(HeaderParts(b), '|') }

  function Leaves(h: Hash, rows: seq<Row>): (r: seq<string>)
    ensures |r| == |rows|
  {
    if rows == [] then [] else Leaves(h, rows[..|rows| - 1]) + [h(Canonical(rows[|rows| - 1].entry))]
  }

  /** One level up: neighbours hashed together, an odd last one with itself. */
  function Level(h: Hash, hs: seq<string>): (r: seq<string>)
    ensures |r| == (|hs| + 1) / 2
  {
    if hs == [] then []
    else if |hs| == 1 then [h(hs[0] + hs[0])]
    else [h(hs[0] + hs[1])] + Level(h, hs[2..])
  }

  function MerkleRoot(h: Hash, hs: seq<string>): string
    decreases |hs|
  {
    if hs == [] then ZERO_HASH else if |hs| == 1 then hs[0] else MerkleRoot(h, Level(h, hs))
  }

  // ---------------------------------------------------------------------------
  // Verification
  // ---------------------------------------------------------------------------

  function Within(start: int, end: int): Row -> bool { (r: Row) => start <= r.journal <= end }

  function Covered(rows: seq<Row>, b: Block): seq<Row> { Keep(rows, Within(b.start, b.end)) }

  function Tip(blocks: seq<Block>): string { if blocks == [] then ZERO_HASH else blocks[|blocks| - 1].current }

  predicate BlockOk(h: Hash, rows: seq<Row>, previous: string, b: Block) {
    && b.previous == previous
    && |Covered(rows, b)| == b.entryCount
    && MerkleRoot(h, Leaves(h, Covered(rows, b))) == b.merkleRoot
    && h(Header(b)) == b.current
  }

  predicate Verifies(h: Hash, rows: seq<Row>, blocks: seq<Block>) {
    blocks == []
    || (Verifies(h, rows, blocks[..|blocks| - 1]) && BlockOk(h, rows, Tip(blocks[..|blocks| - 1]), blocks[|blocks| - 1]))
  }

  // ---------------------------------------------------------------------------
  // No two histories behind one tip
  // ---------------------------------------------------------------------------

  /** Digests are 64 characters without the separator. */
  ghost predicate HexDigests(h: Hash) { forall x :: |h(x)| == 64 && '|' !in h(x) }

  /** On the strings of `s`, no two share a digest and none has the all-zero one. */
  ghost predicate CollisionFree(h: Hash, s: set<string>) {
    && (forall x, y :: x in s && y in s && h(x) == h(y) ==> x == y)
    && (forall x :: x in s ==> h(x) != ZERO_HASH)
  }

  ghost predicate LevelHashed(hs: seq<string>, s: set<string>) {
    if hs == [] then true
    else if |hs| == 1 then hs[0] + hs[0] in s
    else hs[0] + hs[1] in s && LevelHashed(hs[2..], s)
  }

  /** Every string that computing the root feeds to the hash is in `s`. */
  ghost predicate MerkleHashed(h: Hash, hs: seq<string>, s: set<string>)
    decreases |hs|
  {
    |hs| > 1 ==> LevelHashed(hs, s) && MerkleHashed(h, Level(h, hs), s)
  }

  ghost predicate Digests(hs: seq<string>) { forall i :: 0 <= i < |hs| ==> |hs[i]| == 64 }

  lemma {:induction false} LevelInjective(h: Hash, s: set<string>, a: seq<string>, b: seq<string>)
    requires CollisionFree(h, s) && |a| == |b| && Digests(a) && Digests(b)
    requires LevelHashed(a, s) && LevelHashed(b, s) && Level(h, a) == Level(h, b)
    ensures a == b
  {
    if |a| == 1 {
      assert h(a[0] + a[0]) == h(b[0] + b[0]);
      assert (a[0] + a[0])[..64] == a[0] && (b[0] + b[0])[..64] == b[0];
    } else if |a| > 1 {
      assert Level(h, a)[0] == Level(h, b)[0];
      assert Level(h, a)[1..] == Level(h, a[2..]) && Level(h, b)[1..] == Level(h, b[2..]);
      assert (a[0] + a[1])[..64] == a[0] && (b[0] + b[1])[..64] == b[0];
      assert (a[0] + a[1])[64..] == a[1] && (b[0] + b[1])[64..] == b[1];
      LevelInjective(h, s, a[2..], b[2..]);
      assert a == [a[0], a[1]] + a[2..] && b == [b[0], b[1]] + b[2..];
    }
  }

  lemma {:induction false} LevelDigests(h: Hash, hs: seq<string>)
    requires HexDigests(h)
    ensures Digests(Level(h, hs))
  {
    if |hs| > 1 {
      LevelDigests(h, hs[2..]);
    }
  }

  /** Equal-length leaf lists with equal roots are equal. */
  lemma {:induction false} MerkleInjective(h: Hash, s: set<string>, a: seq<string>, b: seq<string>)
    requires HexDigests(h) && CollisionFree(h, s) && |a| == |b| && Digests(a) && Digests(b)
    requires MerkleHashed(h, a, s) && MerkleHashed(h, b, s) && MerkleRoot(h, a) == MerkleRoot(h, b)
    ensures a == b
    decreases |a|
  {
    if |a| > 1 {
      LevelDigests(h, a);
      LevelDigests(h, b);
      MerkleInjective(h, s, Level(h, a), Level(h, b));
      LevelInjective(h, s, a, b);
    }
  }

  /** Without the length the root says less: an odd last leaf may be repeated. */
  lemma OddLeafMayRepeat(h: Hash, a: string, b: string, c: string)
    ensures MerkleRoot(h, [a, b, c]) == MerkleRoot(h, [a, b, c, c])
  {
    assert [a, b, c][2..] == [c] && [a, b, c, c][2..] == [c, c];
    assert Level(h, [c]) == [h(c + c)];
    assert [c, c][2..] == [];
    assert Level(h, [c, c]) == [h(c + c)];
    assert Level(h, [a, b, c]) == [h(a + b), h(c + c)];
    assert Level(h, [a, b, c, c]) == [h(a + b), h(c + c)];
  }

  // ---------------------------------------------------------------------------
  // Fields can be read back from what is hashed
  // ---------------------------------------------------------------------------

  ghost predicate Unbroken(parts: seq<string>, separator: char) {
    forall i :: 0 <= i < |parts| ==> separator !in parts[i]
  }

  lemma SeparatorInside(p: string, x: string, q: string, y: string, separator: char)
    requires |p| < |q| && p + [separator] + x == q + [separator] + y
    ensures separator in x
  {
    var s := p + [separator] + x;
    assert s[|q|] == (q + [separator] + y)[|q|] == separator;
    assert s[|q|] == x[|q| - |p| - 1];
  }

  lemma LastPart(p: string, x: string, q: string, y: string, separator: char)
    requires separator !in x && separator !in y && p + [separator] + x == q + [separator] + y
    ensures p == q && x == y
  {
    var s, t := p + [separator] + x, q + [separator] + y;
    if |p| < |q| {
      SeparatorInside(p, x, q, y, separator);
    } else if |q| < |p| {
      SeparatorInside(q, y, p, x, separator);
    }
    assert s[..|p|] == p && t[..|q|] == q && s[|p| + 1..] == x && t[|q| + 1..] == y;
  }

  lemma {:induction false} JoinInjective(a: seq<string>, b: seq<string>, separator: char)
    requires |a| == |b| && Unbroken(a, separator) && Unbroken(b, separator) && Join(a, separator) == Join(b, separator)
    ensures a == b
  {
    if |a| > 1 {
      var n := |a| - 1;
      LastPart(Join(a[..n], separator), a[n], Join(b[..n], separator), b[n], separator);
      JoinInjective(a[..n], b[..n], separator);
      assert a == a[..n] + [a[n]] && b == b[..n] + [b[n]];
    }
  }

  lemma DigitsUnbroken(s: string)
    requires AllDigits(s)
    ensures '|' !in s
  {
  }

  lemma IntTextInjective(x: int, y: int)
    requires IntText(x) == IntText(y)
    ensures x == y
  {
    SignShows(x);
    SignShows(y);
    if x < 0 {
      assert IntText(x)[1..] == ToDecimal(-x) && IntText(y)[1..] == ToDecimal(-y);
      ToDecimalInjective(-x, -y);
    } else {
      ToDecimalInjective(x, y);
    }
  }

  lemma SignShows(x: int)
    ensures |IntText(x)| >= 1 && (IntText(x)[0] == '-' <==> x < 0)
  {
    assert x >= 0 ==> IsDigit(ToDecimal(x)[0]);
  }

  ghost predicate PlainIds(e: EntryRow) { '|' !in e.id && '|' !in e.journalId && '|' !in e.accountId }

  lemma NamesUnbroken(c: MoneyMath.Currency, b: L.Bucket)
    ensures '|' !in CurrencyName(c) && '|' !in BucketName(b)
  {
  }

  lemma NamesInjective(c: MoneyMath.Currency, d: MoneyMath.Currency, a: L.Bucket, b: L.Bucket)
    ensures CurrencyName(c) == CurrencyName(d) ==> c == d
    ensures BucketName(a) == BucketName(b) ==> a == b
  {
    assert |CurrencyName(c)| == |CurrencyName(d)| ==> c == d;
    assert BucketName(a)[0] == BucketName(b)[0] ==> a == b;
  }

  lemma CanonicalInjective(a: EntryRow, b: EntryRow)
    requires PlainIds(a) && PlainIds(b) && Canonical(a) == Canonical(b)
    ensures a == b
  {
    var p, q := EntryParts(a), EntryParts(b);
    PartsUnbroken(a);
    PartsUnbroken(b);
    JoinInjective(p, q, '|');
    assert p[0] == q[0] && p[1] == q[1] && p[2] == q[2] && p[3] == q[3];
    assert p[4] == q[4] && p[5] == q[5] && p[6] == q[6] && p[7] == q[7];
    ToDecimalInjective(a.debit, b.debit);
    ToDecimalInjective(a.credit, b.credit);
    ToDecimalInjective(a.sequence, b.sequence);
    NamesInjective(a.currency, b.currency, a.bucket, b.bucket);
  }

  lemma PartsUnbroken(e: EntryRow)
    requires PlainIds(e)
    ensures Unbroken(EntryParts(e), '|')
  {
    DigitsUnbroken(ToDecimal(e.debit));
    DigitsUnbroken(ToDecimal(e.credit));
    DigitsUnbroken(ToDecimal(e.sequence));
    NamesUnbroken(e.currency, e.bucket);
  }

  lemma IntTextUnbroken(x: int)
    ensures '|' !in IntText(x)
  {
    if x < 0 { DigitsUnbroken(ToDecimal(-x)); } else { DigitsUnbroken(ToDecimal(x)); }
  }

  lemma HeaderUnbroken(b: Block)
    requires '|' !in b.previous && '|' !in b.merkleRoot
    ensures Unbroken(HeaderParts(b), '|')
  {
    IntTextUnbroken(b.start);
    IntTextUnbroken(b.end);
    IntTextUnbroken(b.entryCount);
  }

  lemma HeaderInjective(a: Block, b: Block)
    requires '|' !in a.previous && '|' !in a.merkleRoot && '|' !in b.previous && '|' !in b.merkleRoot
    requires Header(a) == Header(b)
    ensures a.(current := b.current) == b
  {
    var p, q := HeaderParts(a), HeaderParts(b);
    HeaderUnbroken(a);
    HeaderUnbroken(b);
    JoinInjective(p, q, '|');
    assert p[0] == q[0] && p[1] == q[1] && p[2] == q[2] && p[3] == q[3] && p[4] == q[4];
    IntTextInjective(a.start, b.start);
    IntTextInjective(a.end, b.end);
    IntTextInjective(a.entryCount, b.entryCount);
  }

  // ---------------------------------------------------------------------------
  // The same tip means the same history
  // ---------------------------------------------------------------------------

  ghost predicate RowsHashed(h: Hash, rows: seq<Row>, s: set<string>) {
    && (forall i :: 0 <= i < |rows| ==> RowHashed(rows[i], s))
    && MerkleHashed(h, Leaves(h, rows), s)
  }

  /** `s` holds every string that verifying the blocks feeds to the hash. */
  ghost predicate Hashed(h: Hash, rows: seq<Row>, blocks: seq<Block>, s: set<string>) {
    blocks == []
    || (Hashed(h, rows, blocks[..|blocks| - 1], s)
        && RowsHashed(h, Covered(rows, blocks[|blocks| - 1]), s) && Header(blocks[|blocks| - 1]) in s)
  }

  function EntriesOf(rows: seq<Row>): (r: seq<EntryRow>)
    ensures |r| == |rows|
  {
    if rows == [] then [] else EntriesOf(rows[..|rows| - 1]) + [rows[|rows| - 1].entry]
  }

  lemma {:induction false} LeavesAreDigests(h: Hash, rows: seq<Row>)
    requires HexDigests(h)
    ensures Digests(Leaves(h, rows)) && forall i :: 0 <= i < |rows| ==> '|' !in Leaves(h, rows)[i]
  {
    if rows != [] {
      LeavesAreDigests(h, rows[..|rows| - 1]);
    }
  }

  lemma AppendInjective<T>(a: seq<T>, x: T, b: seq<T>, y: T)
    requires a + [x] == b + [y]
    ensures a == b && x == y
  {
    assert (a + [x])[..|a|] == a && (b + [y])[..|b|] == b;
    assert (a + [x])[|a|] == x && (b + [y])[|b|] == y;
  }

  ghost predicate RowHashed(r: Row, s: set<string>) { PlainIds(r.entry) && Canonical(r.entry) in s }

  lemma SameDigestSameEntry(h: Hash, s: set<string>, a: Row, b: Row)
    requires CollisionFree(h, s) && RowHashed(a, s) && RowHashed(b, s) && h(Canonical(a.entry)) == h(Canonical(b.entry))
    ensures a.entry == b.entry
  {
    CanonicalInjective(a.entry, b.entry);
  }

  lemma {:induction false} LeavesInjective(h: Hash, s: set<string>, a: seq<Row>, b: seq<Row>)
    requires CollisionFree(h, s) && |a| == |b| && Leaves(h, a) == Leaves(h, b)
    requires (forall i :: 0 <= i < |a| ==> RowHashed(a[i], s)) && (forall i :: 0 <= i < |b| ==> RowHashed(b[i], s))
    ensures EntriesOf(a) == EntriesOf(b)
  {
    if a != [] {
      var n := |a| - 1;
      AppendInjective(Leaves(h, a[..n]), h(Canonical(a[n].entry)), Leaves(h, b[..n]), h(Canonical(b[n].entry)));
      LeavesInjective(h, s, a[..n], b[..n]);
      SameDigestSameEntry(h, s, a[n], b[n]);
    }
  }

  lemma {:induction false} RootIsPlain(h: Hash, hs: seq<string>)
    requires HexDigests(h) && forall i :: 0 <= i < |hs| ==> '|' !in hs[i]
    ensures '|' !in MerkleRoot(h, hs)
    decreases |hs|
  {
    if |hs| > 1 {
      LevelIsPlain(h, hs);
      RootIsPlain(h, Level(h, hs));
    }
  }

  lemma {:induction false} LevelIsPlain(h: Hash, hs: seq<string>)
    requires HexDigests(h)
    ensures forall i :: 0 <= i < |Level(h, hs)| ==> '|' !in Level(h, hs)[i]
  {
    if |hs| > 1 {
      LevelIsPlain(h, hs[2..]);
    }
  }

  /** A verified block's header has no separator inside its hash fields. */
  lemma VerifiedHeaderPlain(h: Hash, rows: seq<Row>, blocks: seq<Block>)
    requires HexDigests(h) && Verifies(h, rows, blocks) && blocks != []
    ensures '|' !in blocks[|blocks| - 1].previous && '|' !in blocks[|blocks| - 1].merkleRoot
  {
    var last := blocks[|blocks| - 1];
    LeavesAreDigests(h, Covered(rows, last));
    RootIsPlain(h, Leaves(h, Covered(rows, last)));
  }

  lemma SameBlockSameEntries(h: Hash, s: set<string>, a: seq<Row>, b: seq<Row>, x: Block)
    requires HexDigests(h) && CollisionFree(h, s)
    requires RowsHashed(h, Covered(a, x), s) && RowsHashed(h, Covered(b, x), s)
    requires |Covered(a, x)| == |Covered(b, x)| == x.entryCount
    requires MerkleRoot(h, Leaves(h, Covered(a, x))) == MerkleRoot(h, Leaves(h, Covered(b, x))) == x.merkleRoot
    ensures EntriesOf(Covered(a, x)) == EntriesOf(Covered(b, x))
  {
    LeavesAreDigests(h, Covered(a, x));
    LeavesAreDigests(h, Covered(b, x));
    MerkleInjective(h, s, Leaves(h, Covered(a, x)), Leaves(h, Covered(b, x)));
    LeavesInjective(h, s, Covered(a, x), Covered(b, x));
  }

  lemma LastBlocksEqual(h: Hash, s: set<string>, rowsA: seq<Row>, a: seq<Block>, rowsB: seq<Row>, b: seq<Block>)
    requires HexDigests(h) && CollisionFree(h, s) && a != [] && b != [] && Tip(a) == Tip(b)
    requires Verifies(h, rowsA, a) && Verifies(h, rowsB, b) && Hashed(h, rowsA, a, s) && Hashed(h, rowsB, b, s)
    ensures a[|a| - 1] == b[|b| - 1] && Tip(a[..|a| - 1]) == Tip(b[..|b| - 1])
  {
    var x, y := a[|a| - 1], b[|b| - 1];
    VerifiedHeaderPlain(h, rowsA, a);
    VerifiedHeaderPlain(h, rowsB, b);
    HeaderInjective(x, y);
  }

  lemma TipIsGenesis(h: Hash, s: set<string>, rows: seq<Row>, blocks: seq<Block>)
    requires CollisionFree(h, s) && Verifies(h, rows, blocks) && Hashed(h, rows, blocks, s)
    ensures Tip(blocks) == ZERO_HASH <==> blocks == []
  {
    if blocks != [] {
      var n := |blocks| - 1;
      assert h(Header(blocks[n])) != ZERO_HASH;
    }
  }

  lemma SameParts<T>(a: seq<T>, b: seq<T>)
    requires a != [] && b != [] && a[..|a| - 1] == b[..|b| - 1] && a[|a| - 1] == b[|b| - 1]
    ensures a == b
  {
    assert a == a[..|a| - 1] + [a[|a| - 1]] && b == b[..|b| - 1] + [b[|b| - 1]];
  }

  lemma {:induction false} SameTipSameBlocks(h: Hash, s: set<string>, rowsA: seq<Row>, a: seq<Block>, rowsB: seq<Row>, b: seq<Block>)
    requires HexDigests(h) && CollisionFree(h, s) && Tip(a) == Tip(b)
    requires Verifies(h, rowsA, a) && Verifies(h, rowsB, b) && Hashed(h, rowsA, a, s) && Hashed(h, rowsB, b, s)
    ensures a == b
  {
    TipIsGenesis(h, s, rowsA, a);
    TipIsGenesis(h, s, rowsB, b);
    if a != [] {
      LastBlocksEqual(h, s, rowsA, a, rowsB, b);
      SameTipSameBlocks(h, s, rowsA, a[..|a| - 1], rowsB, b[..|b| - 1]);
      SameParts(a, b);
    }
  }

  /** The ledger verifies, and `s` holds everything that verifying it hashes. */
  ghost predicate Checked(h: Hash, s: set<string>, rows: seq<Row>, blocks: seq<Block>) {
    Verifies(h, rows, blocks) && Hashed(h, rows, blocks, s)
  }

  /**
   With a hash that has no collision on what is hashed, two ledgers that verify and end in the same block hash have the
   same blocks and, block by block, the same entries.
   */
  lemma SameTipSameHistory(h: Hash, s: set<string>, rowsA: seq<Row>, a: seq<Block>, rowsB: seq<Row>, b: seq<Block>)
    requires HexDigests(h) && CollisionFree(h, s)
    ensures Checked(h, s, rowsA, a) && Checked(h, s, rowsB, b) && Tip(a) == Tip(b) ==>
              a == b && forall k :: 0 <= k < |a| ==> EntriesOf(Covered(rowsA, a[k])) == EntriesOf(Covered(rowsB, a[k]))
  {
    if Checked(h, s, rowsA, a) && Checked(h, s, rowsB, b) && Tip(a) == Tip(b) {
      SameTipSameBlocks(h, s, rowsA, a, rowsB, b);
      forall k | 0 <= k < |a| ensures EntriesOf(Covered(rowsA, a[k])) == EntriesOf(Covered(rowsB, a[k])) {
        VerifiedAt(h, rowsA, a, s, k);
        VerifiedAt(h, rowsB, b, s, k);
        SameBlockSameEntries(h, s, rowsA, rowsB, a[k]);
      }
    }
  }

  lemma {:induction false} OkAt(h: Hash, rows: seq<Row>, blocks: seq<Block>, k: nat)
    requires Verifies(h, rows, blocks) && k < |blocks|
    ensures BlockOk(h, rows, Tip(blocks[..k]), blocks[k])
  {
    if k < |blocks| - 1 {
      OkAt(h, rows, blocks[..|blocks| - 1], k);
      assert blocks[..|blocks| - 1][..k] == blocks[..k];
    }
  }

  lemma {:induction false} VerifiedAt(h: Hash, rows: seq<Row>, blocks: seq<Block>, s: set<string>, k: nat)
    requires Verifies(h, rows, blocks) && Hashed(h, rows, blocks, s) && k < |blocks|
    ensures BlockOk(h, rows, Tip(blocks[..k]), blocks[k]) && RowsHashed(h, Covered(rows, blocks[k]), s)
  {
    if k < |blocks| - 1 {
      VerifiedAt(h, rows, blocks[..|blocks| - 1], s, k);
      assert blocks[..|blocks| - 1][..k] == blocks[..k];
    }
  }
}
