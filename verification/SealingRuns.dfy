/** The plainest use of the block ledger: post one journal, seal it, and again. */
module SealingRuns {
  import opened Basics
  import opened Decimal
  import L = Ledger
  import P = PayoutSteps
  import T = PipelineTheorems
  import opened Sequences
  import opened BlockChain
  import opened BlockOrder
  import opened LedgerBlocks

  /** The k-th journal funds the treasury with one nanoGRAM. */
  function Draft(k: nat): L.JournalDraft { P.FundDraft(1, ToDecimal(k)) }

  /** Numbers as the sequences hand them out: journal k and its two entries. */
  function GivenTo(k: nat): Given {
    Given(k, ToDecimal(k), (i: nat) => 2 * k + i, (i: nat) => ToDecimal(2 * k + i))
  }

  function Rounds(n: nat): seq<Action> {
    if n == 0 then [] else Rounds(n - 1) + [DoPost(Draft(n), GivenTo(n)), DoSeal(n)]
  }

  ghost predicate Funded(b: Books, n: nat) {
    && L.Sound(b.journals)
    && (forall j :: j in b.journals ==> j.operationId.TreasuryFunded?)
    && (forall j, k: nat :: j in b.journals && j.operationId == L.TreasuryFunded(ToDecimal(k)) ==> k <= n)
    && |b.numbers| == n && (forall i :: 0 <= i < n ==> b.numbers[i] == i + 1)
  }

  ghost predicate Blocked(b: Books, n: nat) {
    && |b.blocks| == n && Consecutive(b.blocks)
    && (forall i :: 0 <= i < n ==> b.blocks[i].block.end == i + 1)
  }

  /** Blocks 1 to 10 begin with their own journal, later ones with the tenth again. */
  ghost predicate Restarts(b: Books) {
    forall i :: 0 <= i < |b.blocks| && i < 90 ==> b.blocks[i].block.start == if i < 10 then i + 1 else 10
  }

  lemma DraftIsNew(accounts: Accounts, b: Books, n: nat)
    requires Funded(b, n)
    ensures Creates(b, Draft(n + 1)) && Funded(AfterPost(accounts, b, Draft(n + 1), GivenTo(n + 1)), n + 1)
  {
    T.FundingPosts(b.journals, 1, ToDecimal(n + 1));
    L.PostKeepsSound(b.journals, Draft(n + 1));
    var js := L.Posting(b.journals, Draft(n + 1)).journals;
    var j := js[|b.journals|];
    assert js == b.journals + [j] && j.operationId == L.TreasuryFunded(ToDecimal(n + 1));
    forall k: nat | j.operationId == L.TreasuryFunded(ToDecimal(k)) ensures k <= n + 1 {
      ToDecimalInjective(k, n + 1);
    }
  }

  /** A round is a post and a seal on top of the rounds before. */
  lemma RoundRuns(h: Hash, accounts: Accounts, n: nat)
    requires n > 0
    ensures var b := Run(h, accounts, Rounds(n - 1));
            && Run(h, accounts, Rounds(n)) == AfterSeal(h, AfterPost(accounts, b, Draft(n), GivenTo(n)), n)
            && (Late(h, accounts, Rounds(n)) <==> Late(h, accounts, Rounds(n - 1)) || FallsIn(b, DoPost(Draft(n), GivenTo(n))))
  {
    var before, post := Rounds(n - 1), DoPost(Draft(n), GivenTo(n));
    assert Rounds(n) == before + [post] + [DoSeal(n)];
    LastAction(h, accounts, before + [post], DoSeal(n));
    LastAction(h, accounts, before, post);
  }

  lemma LastAction(h: Hash, accounts: Accounts, init: seq<Action>, a: Action)
    ensures Run(h, accounts, init + [a]) == Next(h, accounts, Run(h, accounts, init), a)
    ensures Late(h, accounts, init + [a]) <==> Late(h, accounts, init) || FallsIn(Run(h, accounts, init), a)
  {
    assert (init + [a])[..|init|] == init;
  }

  lemma LastEnd(b: Books, n: nat)
    requires Blocked(b, n)
    ensures End(Reading(b.blocks)) <= n
  {
    var read := Reading(b.blocks);
    ReadingSorts(b.blocks);
    if read != [] {
      assert read[|read| - 1] in b.blocks;
    }
  }

  /** The last journal is unsealed, and no number is above it. */
  lemma RoundSeals(h: Hash, b: Books, n: nat)
    requires n > 0 && Funded(b, n) && Blocked(b, n - 1)
    ensures Sealing(h, b).Some? && Sealing(h, b).value.end == n
  {
    LastEnd(b, n - 1);
    assert b.numbers[n - 1] == n;
    assert n in Keep(b.numbers, Above(End(Reading(b.blocks))));
    SealingRange(h, b);
  }

  /** Up to nine blocks the last one sealed is read last, then the ninth. */
  lemma EndRead(b: Books, n: nat)
    requires n < 90 && Blocked(b, n)
    ensures End(Reading(b.blocks)) == if n < 10 then n else 9
  {
    if n < 10 {
      CountedIdsAreInOrderBelowTen(b.blocks);
      LastReadInOrder(b.blocks);
    } else {
      NinthIsReadLast(b.blocks);
    }
  }

  lemma NextNumber(h: Hash, b: Books, n: nat, after: nat)
    requires Funded(b, n) && after < n && End(Reading(b.blocks)) == after && Sealing(h, b).Some?
    ensures Sealing(h, b).value.start == after + 1
  {
    var next := b.numbers[after];
    assert next in b.numbers && next == after + 1;
    SealingRange(h, b);
  }

  lemma RoundStarts(h: Hash, b: Books, n: nat)
    requires 0 < n <= 90 && Funded(b, n) && Blocked(b, n - 1)
    ensures Sealing(h, b).Some? && Sealing(h, b).value.start == if n <= 10 then n else 10
  {
    RoundSeals(h, b, n);
    EndRead(b, n - 1);
    NextNumber(h, b, n, if n <= 10 then n - 1 else 9);
  }

  lemma RoundAppends(b: Books, x: Block, n: nat)
    requires n > 0 && Blocked(b, n - 1) && Restarts(b) && x.end == n && (n <= 90 ==> x.start == if n <= 10 then n else 10)
    ensures Blocked(b.(blocks := b.blocks + [Sealed(n, x)]), n) && Restarts(b.(blocks := b.blocks + [Sealed(n, x)]))
  {
  }

  lemma RoundIsSealed(h: Hash, b: Books, n: nat)
    requires n > 0 && Funded(b, n) && Blocked(b, n - 1) && Restarts(b)
    ensures var next := AfterSeal(h, b, n); Funded(next, n) && Blocked(next, n) && Restarts(next)
  {
    RoundSeals(h, b, n);
    if n <= 90 { RoundStarts(h, b, n); }
    RoundAppends(b, Sealing(h, b).value, n);
    assert !HasId(b.blocks, n);
  }

  lemma {:induction false} RoundsRun(h: Hash, accounts: Accounts, n: nat)
    ensures var b := Run(h, accounts, Rounds(n)); Funded(b, n) && Blocked(b, n) && Restarts(b)
    ensures !Late(h, accounts, Rounds(n))
  {
    if n > 0 {
      var b := Run(h, accounts, Rounds(n - 1));
      RoundsRun(h, accounts, n - 1);
      RoundRuns(h, accounts, n);
      DraftIsNew(accounts, b, n - 1);
      RoundIsSealed(h, AfterPost(accounts, b, Draft(n), GivenTo(n)), n);
    }
  }

  /** Ordinary use verifies for nine blocks and never after. */
  lemma RoundsVerifyBelowTen(h: Hash, accounts: Accounts, n: nat)
    requires HexDigests(h) && CollisionFree(h, HeadersOf(Run(h, accounts, Rounds(n)).blocks))
    ensures |Run(h, accounts, Rounds(n)).blocks| == n
    ensures LedgerVerifies(h, Run(h, accounts, Rounds(n))) <==> n < 10
  {
    RoundsRun(h, accounts, n);
    CountedBlocksVerifyBelowTen(h, accounts, Rounds(n));
  }

  /** The eleventh seal covers the tenth journal again: it is in two blocks. */
  lemma EleventhOverlapsTenth(h: Hash, accounts: Accounts)
    ensures var b := Run(h, accounts, Rounds(11)).blocks;
            && |b| == 11 && b[9].block.start == b[9].block.end == 10 && b[10].block.start == 10 && b[10].block.end == 11
            && Holds(b, 9, 10) && Holds(b, 10, 10)
  {
    RoundsRun(h, accounts, 11);
  }
}
