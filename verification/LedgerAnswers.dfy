/** What posting a draft answers, said of its lines, and the one currency each account keeps. */
module LedgerAnswers {
  import opened Basics
  import opened MoneyMath
  import opened Sums
  import opened Ledger
  import opened PipelineInvariants

  // ---------------------------------------------------------------------------
  // Posting
  // ---------------------------------------------------------------------------

  function AmountOf(m: Option<Money>): int { if m.Some? then m.value.atomic else 0 }

  /** Exactly one side of a line carries an amount, and it is positive. */
  predicate WellFormed(l: JournalLine) {
    (AmountOf(l.debit) > 0 && AmountOf(l.credit) == 0) || (AmountOf(l.credit) > 0 && AmountOf(l.debit) == 0)
  }

  /** The first line that is not well formed, and what is said of it. */
  ghost predicate FirstMalformed(ls: seq<JournalLine>, k: nat, e: PostError) {
    && k < |ls| && !WellFormed(ls[k]) && (forall i :: 0 <= i < k ==> WellFormed(ls[i]))
    && e == (if (AmountOf(ls[k].debit) == 0) == (AmountOf(ls[k].credit) == 0) then InvalidEntry else NegativeAmount)
  }

  lemma {:induction false} MalformedIsFound(ls: seq<JournalLine>)
    ensures LinesError(ls).Some? ==> exists k :: FirstMalformed(ls, k, LinesError(ls).value)
    ensures LinesError(ls).None? ==> forall i :: 0 <= i < |ls| ==> WellFormed(ls[i])
  {
    if ls != [] {
      var n := |ls| - 1;
      MalformedIsFound(ls[..n]);
      var before := LinesError(ls[..n]);
      assert LinesError(ls) == if before.Some? then before else LineError(ls[n]);
      if before.Some? {
        var k :| FirstMalformed(ls[..n], k, before.value);
        assert FirstMalformed(ls, k, before.value);
      } else if LineError(ls[n]).Some? {
        assert FirstMalformed(ls, n, LinesError(ls).value);
      }
    }
  }

  /** When the posting reaches line `k`: what its bucket then holds. */
  function Reached(js: seq<Journal>, ls: seq<JournalLine>, k: nat): int
    requires k < |ls|
  {
    Balance(js, ls[k].account, ls[k].bucket) + Sum(ls[..k + 1], LineMoves(ls[k].account, ls[k].bucket))
  }

  ghost predicate Accepts(js: seq<Journal>, ls: seq<JournalLine>, k: nat)
    requires k < |ls|
  {
    match TypeOf(ls[k].account)
    case None => false
    case Some(t) => t in {ASSET, LIABILITY} ==> Reached(js, ls, k) >= 0
  }

  ghost predicate FirstRefused(js: seq<Journal>, ls: seq<JournalLine>, k: nat, e: PostError) {
    && k < |ls| && !Accepts(js, ls, k) && (forall i :: 0 <= i < k ==> Accepts(js, ls, i))
    && e == (if TypeOf(ls[k].account).None? then UnknownAccount else NegativeBucket)
  }

  lemma AcceptsPrefix(js: seq<Journal>, ls: seq<JournalLine>, n: nat, k: nat)
    requires k < n <= |ls|
    ensures Accepts(js, ls[..n], k) <==> Accepts(js, ls, k)
  {
    assert ls[..n][..k + 1] == ls[..k + 1];
  }

  lemma {:induction false} RefusedIsFound(js: seq<Journal>, ls: seq<JournalLine>)
    requires LinesError(ls).None?
    ensures match ProjectionError(js, Entries(ls))
            case Some(e) => exists k :: FirstRefused(js, ls, k, e)
            case None => forall i :: 0 <= i < |ls| ==> Accepts(js, ls, i)
  {
    if ls != [] {
      var n := |ls| - 1;
      RefusedIsFound(js, ls[..n]);
      forall i: nat | i < n ensures Accepts(js, ls[..n], i) <==> Accepts(js, ls, i) { AcceptsPrefix(js, ls, n, i); }
      LastEntry(js, ls);
      var before := ProjectionError(js, Entries(ls[..n]));
      if before.Some? {
        var k :| FirstRefused(js, ls[..n], k, before.value);
        assert FirstRefused(js, ls, k, before.value);
      } else if !Accepts(js, ls, n) {
        assert FirstRefused(js, ls, n, ProjectionError(js, Entries(ls)).value);
      }
    }
  }

  lemma LastEntry(js: seq<Journal>, ls: seq<JournalLine>)
    requires LinesError(ls).None? && ls != []
    ensures var n := |ls| - 1;
            var before := ProjectionError(js, Entries(ls[..n]));
            ProjectionError(js, Entries(ls))
              == if before.Some? then before
                 else if Accepts(js, ls, n) then None
                 else if TypeOf(ls[n].account).None? then Some(UnknownAccount)
                 else Some(NegativeBucket)
  {
    var n := |ls| - 1;
    assert Entries(ls)[..n] == Entries(ls[..n]);
    EntriesMoveAsLines(ls, ls[n].account, ls[n].bucket);
    assert ls[..n + 1] == ls;
  }

  /** The entry a line becomes. */
  predicate Records(e: Entry, l: JournalLine) {
    && e.account == l.account && e.bucket == l.bucket
    && e.debit == AmountOf(l.debit) && e.credit == AmountOf(l.credit)
    && e.currency == (if AmountOf(l.debit) != 0 then l.debit.value.currency
                      else if l.credit.Some? then l.credit.value.currency else e.currency)
  }

  /** What a new journal must be: the draft's reference and operation, and its lines in order. */
  ghost predicate IsNewJournal(j: Journal, d: JournalDraft) {
    && j.reference == d.reference && Some(j.operationId) == d.operationId
    && |j.entries| == |d.lines| && forall k :: 0 <= k < |d.lines| ==> Records(j.entries[k], d.lines[k])
  }

  ghost predicate PostedAs(js: seq<Journal>, d: JournalDraft, o: Outcome) {
    if |d.lines| == 0 then o == Outcome(js, Refused(EmptyJournal))
    else if d.operationId.None? then o == Outcome(js, Refused(MissingOperationId))
    else if exists i :: 0 <= i < |d.lines| && !WellFormed(d.lines[i]) then
      exists k, e :: FirstMalformed(d.lines, k, e) && o == Outcome(js, Refused(e))
    else if exists c :: Sum(d.lines, Side(c, true)) != Sum(d.lines, Side(c, false)) then o == Outcome(js, Refused(Unbalanced))
    else if exists i :: 0 <= i < |js| && js[i].operationId == d.operationId.value then
      exists i: nat :: i < |js| && js[i].operationId == d.operationId.value && o == Outcome(js, Posted(i, false))
    else if exists i :: 0 <= i < |d.lines| && !Accepts(js, d.lines, i) then
      exists k, e :: FirstRefused(js, d.lines, k, e) && o == Outcome(js, Refused(e))
    else exists j :: IsNewJournal(j, d) && o == Outcome(js + [j], Posted(|js|, true))
  }

  lemma WrittenAsDrafted(d: JournalDraft)
    requires LinesError(d.lines).None? && d.operationId.Some?
    ensures IsNewJournal(Journal(d.reference, d.operationId.value, Entries(d.lines)), d)
  {
    EntriesOneSided(d.lines);
  }

  lemma SidesDecide(ls: seq<JournalLine>)
    requires LinesError(ls).None?
    ensures Balanced(Entries(ls)) <==> forall c :: Sum(ls, Side(c, true)) == Sum(ls, Side(c, false))
  {
    forall c ensures Sum(Entries(ls), DebitIn(c)) == Sum(ls, Side(c, true)) && Sum(Entries(ls), CreditIn(c)) == Sum(ls, Side(c, false)) {
      EntriesSideAsLines(ls, c);
    }
  }

  /** What posting answers to every draft. */
  lemma PostAnswers(js: seq<Journal>, d: JournalDraft)
    ensures PostedAs(js, d, Posting(js, d))
  {
    if d.lines != [] && d.operationId.Some? {
      MalformedIsFound(d.lines);
      if LinesError(d.lines).None? {
        SidesDecide(d.lines);
        RefusedIsFound(js, d.lines);
        WrittenAsDrafted(d);
      }
    }
  }
}
