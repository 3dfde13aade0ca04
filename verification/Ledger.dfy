/**
 The double-entry ledger: `Post` is the only way to write, journals are the truth and the four
 balance buckets of an account are a projection that the class keeps beside them.
 */
module Ledger {
  import opened Basics
  import opened MoneyMath
  import opened Sums

  datatype Bucket = AVAILABLE | PENDING | SETTLING | REVIEW_HOLD

  datatype AccountType = ASSET | LIABILITY | EQUITY | REVENUE | EXPENSE

  datatype SystemAccount =
    | ProviderClearingToman
    | PlatformRevenueToman
    | InstantWithdrawalRevenueToman
    | PlatformExpenseToman
    | TreasuryGram
    | TreasuryFundingEquity
    | NetworkFeeExpenseGram
    | SettlementClearingToman
    | SettlementClearingGram
    | SuspenseToman

  /** `Unregistered` stands for an id with no row in the chart of accounts. */
  datatype AccountId = System(code: SystemAccount) | Merchant(owner: nat) | Unregistered(id: nat)

  /** The textual operation ids of the callers, one constructor a format. */
  datatype OperationId =
    | PaymentVerified(provider: string, externalId: string)
    | PaymentReleased(payment: nat)
    | PayoutQueued(payout: nat)
    | PayoutSettled(payout: nat)
    | PayoutFailed(payout: nat)
    | TreasuryFunded(txHash: string)

  datatype Reference = PaymentRef(payment: nat) | PayoutRef(payout: nat) | TreasuryRef

  datatype JournalLine = JournalLine(account: AccountId, debit: Option<Money>, credit: Option<Money>, bucket: Bucket)

  datatype JournalDraft = JournalDraft(reference: Reference, operationId: Option<OperationId>, lines: seq<JournalLine>)

  datatype Entry = Entry(account: AccountId, debit: nat, credit: nat, currency: Currency, bucket: Bucket)

  datatype Journal = Journal(reference: Reference, operationId: OperationId, entries: seq<Entry>)

  datatype PostError =
    | EmptyJournal
    | MissingOperationId
    | InvalidEntry
    | NegativeAmount
    | Unbalanced
    | UnknownAccount
    | NegativeBucket

  datatype PostResult = Posted(journal: nat, created: bool) | Refused(error: PostError)

  datatype Outcome = Outcome(journals: seq<Journal>, result: PostResult)

  function Debit(account: AccountId, amount: Money, bucket: Bucket := AVAILABLE): JournalLine {
    JournalLine(account, Some(amount), None, bucket)
  }

  function Credit(account: AccountId, amount: Money, bucket: Bucket := AVAILABLE): JournalLine {
    JournalLine(account, None, Some(amount), bucket)
  }

  // ---------------------------------------------------------------------------
  // Chart of accounts and signed amounts
  // ---------------------------------------------------------------------------

  function TypeOf(a: AccountId): Option<AccountType> {
    match a
    case Merchant(_) => Some(LIABILITY)
    case Unregistered(_) => None
    case System(code) =>
      match code
      case ProviderClearingToman | TreasuryGram | SuspenseToman => Some(ASSET)
      case PlatformRevenueToman | InstantWithdrawalRevenueToman => Some(REVENUE)
      case TreasuryFundingEquity => Some(EQUITY)
      case _ => Some(EXPENSE)
  }

  /** Only these accounts have a row in the projection. */
  predicate BalanceBearing(a: AccountId) {
    TypeOf(a) == Some(ASSET) || TypeOf(a) == Some(LIABILITY)
  }

  predicate CreditNatured(a: AccountId) {
    TypeOf(a) == Some(LIABILITY) || TypeOf(a) == Some(REVENUE) || TypeOf(a) == Some(EQUITY)
  }

  function Signed(e: Entry): int {
    if CreditNatured(e.account) then e.credit - e.debit else e.debit - e.credit
  }

  function Moves(a: AccountId, b: Bucket): Entry -> int {
    (e: Entry) => if e.account == a && e.bucket == b then Signed(e) else 0
  }

  function JournalMoves(a: AccountId, b: Bucket): Journal -> int {
    (j: Journal) => Sum(j.entries, Moves(a, b))
  }

  /** What the journal alone says bucket `b` of account `a` holds. */
  function Balance(js: seq<Journal>, a: AccountId, b: Bucket): int {
    Sum(js, JournalMoves(a, b))
  }

  function DebitIn(c: Currency): Entry -> int {
    (e: Entry) => if e.currency == c then e.debit else 0
  }

  function CreditIn(c: Currency): Entry -> int {
    (e: Entry) => if e.currency == c then e.credit else 0
  }

  function JournalDebit(c: Currency): Journal -> int {
    (j: Journal) => Sum(j.entries, DebitIn(c))
  }

  function JournalCredit(c: Currency): Journal -> int {
    (j: Journal) => Sum(j.entries, CreditIn(c))
  }

  ghost predicate Balanced(es: seq<Entry>) {
    forall c :: Sum(es, DebitIn(c)) == Sum(es, CreditIn(c))
  }

  // ---------------------------------------------------------------------------
  // What posting a draft means
  // ---------------------------------------------------------------------------

  predicate HasDebit(l: JournalLine) { l.debit.Some? && l.debit.value.atomic != 0 }

  predicate HasCredit(l: JournalLine) { l.credit.Some? && l.credit.value.atomic != 0 }

  function Amount(l: JournalLine): Money
    requires HasDebit(l) != HasCredit(l)
  {
    if HasDebit(l) then l.debit.value else l.credit.value
  }

  function LineError(l: JournalLine): Option<PostError> {
    if HasDebit(l) == HasCredit(l) then Some(InvalidEntry)
    else if Amount(l).atomic < 0 then Some(NegativeAmount)
    else None
  }

  function ToEntry(l: JournalLine): Entry
    requires LineError(l).None?
  {
    var m := Amount(l);
    if HasDebit(l) then Entry(l.account, m.atomic, 0, m.currency, l.bucket)
    else Entry(l.account, 0, m.atomic, m.currency, l.bucket)
  }

  /** The error of the first line that has one. */
  function LinesError(ls: seq<JournalLine>): Option<PostError> {
    if ls == [] then None
    else match LinesError(ls[..|ls| - 1])
         case Some(e) => Some(e)
         case None => LineError(ls[|ls| - 1])
  }

  function Entries(ls: seq<JournalLine>): (es: seq<Entry>)
    requires LinesError(ls).None?
    ensures |es| == |ls|
  {
    if ls == [] then [] else Entries(ls[..|ls| - 1]) + [ToEntry(ls[|ls| - 1])]
  }

  /** Applying `es` on top of `js` line by line: the first unknown account or overdrawn bucket. */
  function ProjectionError(js: seq<Journal>, es: seq<Entry>): Option<PostError> {
    if es == [] then None
    else match ProjectionError(js, es[..|es| - 1])
         case Some(e) => Some(e)
         case None =>
           var e := es[|es| - 1];
           if TypeOf(e.account).None? then Some(UnknownAccount)
           else if BalanceBearing(e.account)
                   && Balance(js, e.account, e.bucket) + Sum(es, Moves(e.account, e.bucket)) < 0
           then Some(NegativeBucket)
           else None
  }

  /** The journal of an operation, if it has been posted. */
  function FindOperation(js: seq<Journal>, op: OperationId): (k: Option<nat>)
    ensures k.Some? ==> k.value < |js| && js[k.value].operationId == op
    ensures k.None? ==> forall i :: 0 <= i < |js| ==> js[i].operationId != op
  {
    if js == [] then None
    else match FindOperation(js[..|js| - 1], op)
         case Some(k) => Some(k)
         case None => if js[|js| - 1].operationId == op then Some(|js| - 1) else None
  }

  ghost function Posting(js: seq<Journal>, d: JournalDraft): Outcome {
    if d.lines == [] then Outcome(js, Refused(EmptyJournal))
    else if d.operationId.None? then Outcome(js, Refused(MissingOperationId))
    else match LinesError(d.lines)
         case Some(e) => Outcome(js, Refused(e))
         case None =>
           var es := Entries(d.lines);
           if !Balanced(es) then Outcome(js, Refused(Unbalanced))
           else match FindOperation(js, d.operationId.value)
                case Some(k) => Outcome(js, Posted(k, false))
                case None =>
                  match ProjectionError(js, es)
                  case Some(e) => Outcome(js, Refused(e))
                  case None => Outcome(js + [Journal(d.reference, d.operationId.value, es)], Posted(|js|, true))
  }

  // ---------------------------------------------------------------------------
  // What every ledger keeps
  // ---------------------------------------------------------------------------

  ghost predicate OneSided(e: Entry) {
    (e.debit > 0) != (e.credit > 0) && TypeOf(e.account).Some?
  }

  ghost predicate JournalOk(j: Journal) {
    j.entries != [] && Balanced(j.entries) && forall e :: e in j.entries ==> OneSided(e)
  }

  ghost predicate OperationsUnique(js: seq<Journal>) {
    forall i, k :: 0 <= i < k < |js| ==> js[i].operationId != js[k].operationId
  }

  ghost predicate NeverNegative(js: seq<Journal>) {
    forall a, b :: BalanceBearing(a) ==> Balance(js, a, b) >= 0
  }

  ghost predicate Sound(js: seq<Journal>) {
    && (forall j :: j in js ==> JournalOk(j))
    && OperationsUnique(js)
    && NeverNegative(js)
  }

  lemma BalanceAfter(js: seq<Journal>, j: Journal, a: AccountId, b: Bucket)
    ensures Balance(js + [j], a, b) == Balance(js, a, b) + Sum(j.entries, Moves(a, b))
  {
    SumAppend(js, j, JournalMoves(a, b));
  }

  lemma {:induction false} EntriesOneSided(ls: seq<JournalLine>)
    requires LinesError(ls).None?
    ensures forall i :: 0 <= i < |ls| ==> LineError(ls[i]).None? && Entries(ls)[i] == ToEntry(ls[i])
  {
    if ls != [] {
      EntriesOneSided(ls[..|ls| - 1]);
    }
  }

  /** A draft that passes the line-by-line check leaves no bucket negative, whatever the order of its lines. */
  lemma {:induction false} ProjectionKeepsBuckets(js: seq<Journal>, es: seq<Entry>, a: AccountId, b: Bucket)
    requires NeverNegative(js) && BalanceBearing(a)
    requires ProjectionError(js, es).None?
    ensures Balance(js, a, b) + Sum(es, Moves(a, b)) >= 0
  {
    if es != [] {
      ProjectionKeepsBuckets(js, es[..|es| - 1], a, b);
    }
  }

  lemma {:induction false} ProjectionKnowsAccounts(js: seq<Journal>, es: seq<Entry>)
    requires ProjectionError(js, es).None?
    ensures forall e :: e in es ==> TypeOf(e.account).Some?
  {
    if es != [] {
      ProjectionKnowsAccounts(js, es[..|es| - 1]);
      assert es == es[..|es| - 1] + [es[|es| - 1]];
    }
  }

  lemma PostKeepsSound(js: seq<Journal>, d: JournalDraft)
    requires Sound(js)
    ensures Sound(Posting(js, d).journals)
  {
    var o := Posting(js, d);
    if o.result.Posted? && o.result.created {
      var es := Entries(d.lines);
      var j := Journal(d.reference, d.operationId.value, es);
      EntriesOneSided(d.lines);
      ProjectionKnowsAccounts(js, es);
      assert JournalOk(j);
      forall a, b | BalanceBearing(a)
        ensures Balance(o.journals, a, b) >= 0
      {
        BalanceAfter(js, j, a, b);
        ProjectionKeepsBuckets(js, es, a, b);
      }
    }
  }

  // ---------------------------------------------------------------------------
  // Runs
  // ---------------------------------------------------------------------------

  ghost function PostAll(js: seq<Journal>, ds: seq<JournalDraft>): seq<Journal> {
    if ds == [] then js else Posting(PostAll(js, ds[..|ds| - 1]), ds[|ds| - 1]).journals
  }

  lemma {:induction false} SoundJournalsBalance(js: seq<Journal>, c: Currency)
    requires forall j :: j in js ==> JournalOk(j)
    ensures Sum(js, JournalDebit(c)) == Sum(js, JournalCredit(c))
  {
    if js != [] {
      SoundJournalsBalance(js[..|js| - 1], c);
      assert JournalOk(js[|js| - 1]);
    }
  }

  /**
   Every sequence of drafts, whether refused, replayed or new, keeps the two sides of each currency equal over
   the whole ledger, no bucket negative, and one journal an operation id.
   */
  lemma {:induction false} EveryRunIsSound(ds: seq<JournalDraft>)
    ensures Sound(PostAll([], ds))
    ensures forall c :: Sum(PostAll([], ds), JournalDebit(c)) == Sum(PostAll([], ds), JournalCredit(c))
  {
    if ds != [] {
      EveryRunIsSound(ds[..|ds| - 1]);
      PostKeepsSound(PostAll([], ds[..|ds| - 1]), ds[|ds| - 1]);
    }
    forall c ensures Sum(PostAll([], ds), JournalDebit(c)) == Sum(PostAll([], ds), JournalCredit(c)) {
      SoundJournalsBalance(PostAll([], ds), c);
    }
  }

  lemma PostedIsThere(js: seq<Journal>, d: JournalDraft)
    requires Posting(js, d).result.Posted?
    ensures var o := Posting(js, d);
            d.operationId.Some? && o.result.journal < |o.journals| && o.journals[o.result.journal].operationId == d.operationId.value
  {
  }

  lemma ReplayChangesNothing(js: seq<Journal>, k: nat, again: JournalDraft)
    requires k < |js| && again.operationId == Some(js[k].operationId)
    ensures Posting(js, again).journals == js
    ensures Posting(js, again).result.Posted? ==>
              !Posting(js, again).result.created && Posting(js, again).result.journal < |js|
              && js[Posting(js, again).result.journal].operationId == js[k].operationId
  {
  }

  /** Once an operation id has a journal, no later draft under that id changes anything, whatever its lines. */
  lemma OperationPostsOnce(js: seq<Journal>, d: JournalDraft, later: seq<JournalDraft>, again: JournalDraft)
    requires Posting(js, d).result.Posted? && again.operationId == d.operationId
    ensures var after := PostAll(Posting(js, d).journals, later);
            Posting(after, again).journals == after
    ensures var after := PostAll(Posting(js, d).journals, later);
            Posting(after, again).result.Posted? ==>
              && d.operationId.Some? && !Posting(after, again).result.created
              && Posting(after, again).result.journal < |after|
              && after[Posting(after, again).result.journal].operationId == d.operationId.value
  {
    var start := Posting(js, d).journals;
    var k := Posting(js, d).result.journal;
    PostedIsThere(js, d);
    JournalsOnlyGrow(start, later);
    assert PostAll(start, later)[k] == start[k];
    ReplayChangesNothing(PostAll(start, later), k, again);
  }

  lemma {:induction false} JournalsOnlyGrow(js: seq<Journal>, ds: seq<JournalDraft>)
    ensures js <= PostAll(js, ds)
  {
    if ds != [] {
      JournalsOnlyGrow(js, ds[..|ds| - 1]);
    }
  }

  // ---------------------------------------------------------------------------
  // The service: journals plus the balances projection
  // ---------------------------------------------------------------------------

  datatype Buckets = Buckets(available: int, pending: int, settling: int, reviewHold: int)

  const EmptyBuckets := Buckets(0, 0, 0, 0)

  function Column(r: Buckets, b: Bucket): int {
    match b
    case AVAILABLE => r.available
    case PENDING => r.pending
    case SETTLING => r.settling
    case REVIEW_HOLD => r.reviewHold
  }

  function WithColumn(r: Buckets, b: Bucket, x: int): Buckets {
    match b
    case AVAILABLE => r.(available := x)
    case PENDING => r.(pending := x)
    case SETTLING => r.(settling := x)
    case REVIEW_HOLD => r.(reviewHold := x)
  }

  function Row(balances: map<AccountId, Buckets>, a: AccountId): Buckets {
    if a in balances then balances[a] else EmptyBuckets
  }

  /** The projection agrees with the journals, for every account and bucket, once `es` are added on top. */
  ghost predicate Projects(balances: map<AccountId, Buckets>, js: seq<Journal>, es: seq<Entry>) {
    && (forall a :: a in balances ==> BalanceBearing(a))
    && (forall a, b :: BalanceBearing(a) ==> Column(Row(balances, a), b) == Balance(js, a, b) + Sum(es, Moves(a, b)))
  }

  function PerCurrency(m: map<Currency, (int, int)>, c: Currency): (int, int) {
    if c in m then m[c] else (0, 0)
  }

  lemma {:induction false} LinesErrorPrefix(ls: seq<JournalLine>, k: nat)
    requires k <= |ls|
    ensures LinesError(ls[..k]).Some? ==> LinesError(ls) == LinesError(ls[..k])
  {
    if k < |ls| {
      LinesErrorPrefix(ls[..|ls| - 1], k);
      assert ls[..|ls| - 1][..k] == ls[..k];
    } else {
      assert ls[..k] == ls;
    }
  }

  lemma {:induction false} ProjectionErrorPrefix(js: seq<Journal>, es: seq<Entry>, k: nat)
    requires k <= |es|
    ensures ProjectionError(js, es[..k]).Some? ==> ProjectionError(js, es) == ProjectionError(js, es[..k])
  {
    if k < |es| {
      ProjectionErrorPrefix(js, es[..|es| - 1], k);
      assert es[..|es| - 1][..k] == es[..k];
    } else {
      assert es[..k] == es;
    }
  }

  lemma MovesStep(es: seq<Entry>, e: Entry)
    ensures forall a, b :: Sum(es + [e], Moves(a, b)) == Sum(es, Moves(a, b)) + Moves(a, b)(e)
  {
    forall a, b { SumAppend(es, e, Moves(a, b)); }
  }

  lemma SidesStep(es: seq<Entry>, e: Entry)
    ensures forall c :: Sum(es + [e], DebitIn(c)) == Sum(es, DebitIn(c)) + DebitIn(c)(e)
    ensures forall c :: Sum(es + [e], CreditIn(c)) == Sum(es, CreditIn(c)) + CreditIn(c)(e)
  {
    forall c ensures Sum(es + [e], DebitIn(c)) == Sum(es, DebitIn(c)) + DebitIn(c)(e) { SumAppend(es, e, DebitIn(c)); }
    forall c ensures Sum(es + [e], CreditIn(c)) == Sum(es, CreditIn(c)) + CreditIn(c)(e) { SumAppend(es, e, CreditIn(c)); }
  }

  /** The map holds both totals of every currency. */
  ghost predicate Totals(m: map<Currency, (int, int)>, es: seq<Entry>) {
    forall c :: PerCurrency(m, c) == (Sum(es, DebitIn(c)), Sum(es, CreditIn(c)))
  }

  lemma TotalsStep(m: map<Currency, (int, int)>, es: seq<Entry>, e: Entry)
    requires Totals(m, es)
    ensures Totals(m[e.currency := (PerCurrency(m, e.currency).0 + e.debit, PerCurrency(m, e.currency).1 + e.credit)], es + [e])
  {
    SidesStep(es, e);
  }

  lemma ProjectionStep(balances: map<AccountId, Buckets>, js: seq<Journal>, es: seq<Entry>, e: Entry)
    requires Projects(balances, js, es)
    ensures BalanceBearing(e.account) ==>
      var row := Row(balances, e.account);
      && Column(row, e.bucket) + Signed(e) == Balance(js, e.account, e.bucket) + Sum(es + [e], Moves(e.account, e.bucket))
      && Projects(balances[e.account := WithColumn(row, e.bucket, Column(row, e.bucket) + Signed(e))], js, es + [e])
    ensures !BalanceBearing(e.account) ==> Projects(balances, js, es + [e])
  {
    MovesStep(es, e);
    if BalanceBearing(e.account) {
      var row := Row(balances, e.account);
      var next := balances[e.account := WithColumn(row, e.bucket, Column(row, e.bucket) + Signed(e))];
      forall a, b | BalanceBearing(a)
        ensures Column(Row(next, a), b) == Balance(js, a, b) + Sum(es + [e], Moves(a, b))
      {
        assert Column(Row(next, a), b) == Column(Row(balances, a), b) + Moves(a, b)(e);
      }
    }
  }

  class LedgerService {
    var journals: seq<Journal>
    var balances: map<AccountId, Buckets>

    ghost predicate Valid()
      reads this
    {
      Projects(balances, journals, []) && NeverNegative(journals)
    }

    constructor ()
      ensures Valid() && journals == [] && balances == map[]
    {
      journals, balances := [], map[];
    }

    /** Undo everything written since the values were read: what an aborted transaction does. */
    method Rollback(savedJournals: seq<Journal>, savedBalances: map<AccountId, Buckets>)
      modifies this
      ensures journals == savedJournals && balances == savedBalances
    {
      journals, balances := savedJournals, savedBalances;
    }

    method Post(d: JournalDraft) returns (r: PostResult)
      requires Valid()
      modifies this
      ensures Valid()
      ensures Outcome(journals, r) == Posting(old(journals), d)
      ensures r.Refused? || !r.created ==> balances == old(balances)
    {
      if |d.lines| == 0 { return Refused(EmptyJournal); }
      if d.operationId.None? { return Refused(MissingOperationId); }
      var shape := CheckLines(d.lines);
      if shape.Some? { return Refused(shape.value); }
      var op := d.operationId.value;
      var existing := FindOperation(journals, op);
      if existing.Some? { return Posted(existing.value, false); }

      var es := EntryRows(d.lines);
      EntriesOneSided(d.lines);
      r := Write(Journal(d.reference, op, es));
    }

    /** Insert the journal with its entries and update the balances, or undo both. */
    method Write(j: Journal) returns (r: PostResult)
      requires Valid() && forall i :: 0 <= i < |j.entries| ==> (j.entries[i].debit == 0) != (j.entries[i].credit == 0)
      modifies this
      ensures Valid()
      ensures match ProjectionError(old(journals), j.entries)
              case Some(e) => r == Refused(e) && journals == old(journals) && balances == old(balances)
              case None => r == Posted(|old(journals)|, true) && journals == old(journals) + [j]
    {
      var savedJournals, savedBalances := journals, balances;
      var failure := ApplyToProjection(j.entries);
      if failure.Some? {
        Rollback(savedJournals, savedBalances);
        return Refused(failure.value);
      }
      journals := journals + [j];
      forall a, b | BalanceBearing(a)
        ensures Column(Row(balances, a), b) == Balance(journals, a, b) && Balance(journals, a, b) >= 0
      {
        BalanceAfter(savedJournals, j, a, b);
        ProjectionKeepsBuckets(savedJournals, j.entries, a, b);
      }
      return Posted(|journals| - 1, true);
    }

    /** The rows a draft writes, one a line. */
    method EntryRows(ls: seq<JournalLine>) returns (es: seq<Entry>)
      requires LinesError(ls).None?
      ensures es == Entries(ls)
    {
      es := [];
      for i := 0 to |ls|
        invariant LinesError(ls[..i]).None? && es == Entries(ls[..i])
      {
        LinesErrorPrefix(ls, i + 1);
        assert ls[..i + 1][..i] == ls[..i];
        es := es + [ToEntry(ls[i])];
      }
      assert ls[..|ls|] == ls;
    }

    /** One side per line, no negative amount, and the two sides equal in each currency. */
    method CheckLines(ls: seq<JournalLine>) returns (e: Option<PostError>)
      ensures LinesError(ls).Some? ==> e == LinesError(ls)
      ensures LinesError(ls).None? ==> e == if Balanced(Entries(ls)) then None else Some(Unbalanced)
    {
      var perCurrency: map<Currency, (int, int)> := map[];
      for i := 0 to |ls|
        invariant LinesError(ls[..i]).None?
        invariant Totals(perCurrency, Entries(ls[..i]))
      {
        var line := ls[i];
        assert ls[..i + 1][..i] == ls[..i];
        if LineError(line).Some? {
          LinesErrorPrefix(ls, i + 1);
          return LineError(line);
        }
        var amount := Amount(line);
        var (debit, credit) := PerCurrency(perCurrency, amount.currency);
        if HasDebit(line) {
          debit := debit + amount.atomic;
        } else {
          credit := credit + amount.atomic;
        }
        TotalsStep(perCurrency, Entries(ls[..i]), ToEntry(line));
        perCurrency := perCurrency[amount.currency := (debit, credit)];
      }
      assert ls[..|ls|] == ls;
      var toman, gram := PerCurrency(perCurrency, TOMAN), PerCurrency(perCurrency, GRAM);
      e := if toman.0 != toman.1 || gram.0 != gram.1 then Some(Unbalanced) else None;
    }

    /** Update the balances line by line; stops at an unknown account or at the non-negative check. */
    method ApplyToProjection(es: seq<Entry>) returns (e: Option<PostError>)
      requires Projects(balances, journals, [])
      requires forall i :: 0 <= i < |es| ==> (es[i].debit == 0) != (es[i].credit == 0)
      modifies this`balances
      ensures e == ProjectionError(journals, es)
      ensures e.None? ==> Projects(balances, journals, es)
    {
      for i := 0 to |es|
        invariant ProjectionError(journals, es[..i]).None?
        invariant Projects(balances, journals, es[..i])
      {
        var entry := es[i];
        assert es[..i + 1][..i] == es[..i];
        if TypeOf(entry.account).None? {
          ProjectionErrorPrefix(journals, es, i + 1);
          return Some(UnknownAccount);
        }
        ProjectionStep(balances, journals, es[..i], entry);
        assert es[..i + 1] == es[..i] + [entry];
        if TypeOf(entry.account) == Some(ASSET) || TypeOf(entry.account) == Some(LIABILITY) {
          var delta := SignedDelta(entry);
          var row := Row(balances, entry.account);
          var value := Column(row, entry.bucket) + delta;
          if value < 0 {
            ProjectionErrorPrefix(journals, es, i + 1);
            return Some(NegativeBucket);
          }
          balances := balances[entry.account := WithColumn(row, entry.bucket, value)];
        }
      }
      assert es[..|es|] == es;
      return None;
    }

    /** What one entry does to its bucket: a LIABILITY grows by its credit, an ASSET by its debit. */
    method SignedDelta(e: Entry) returns (delta: int)
      requires BalanceBearing(e.account) && (e.debit == 0) != (e.credit == 0)
      ensures delta == Signed(e)
    {
      var increases := if TypeOf(e.account) == Some(LIABILITY) then e.debit == 0 else e.debit != 0;
      var amount := if e.debit != 0 then e.debit else e.credit;
      delta := if increases then amount else -amount;
    }

    /** Recompute one account from the journals and compare it with its row. */
    method VerifyProjection(a: AccountId) returns (r: Result<bool, PostError>)
      ensures TypeOf(a).None? ==> r == Err(UnknownAccount)
      ensures TypeOf(a).Some? ==>
        r == Ok(forall b :: Column(Row(balances, a), b) == Balance(journals, a, b))
    {
      if TypeOf(a).None? { return Err(UnknownAccount); }
      var totals := EmptyBuckets;
      for i := 0 to |journals|
        invariant forall b :: Column(totals, b) == Balance(journals[..i], a, b)
      {
        var es := journals[i].entries;
        for k := 0 to |es|
          invariant forall b :: Column(totals, b) == Balance(journals[..i], a, b) + Sum(es[..k], Moves(a, b))
        {
          MovesStep(es[..k], es[k]);
          assert es[..k + 1] == es[..k] + [es[k]];
          if es[k].account == a {
            totals := WithColumn(totals, es[k].bucket, Column(totals, es[k].bucket) + Signed(es[k]));
          }
        }
        assert es[..|es|] == es;
        assert journals[..i + 1] == journals[..i] + [journals[i]];
        forall b ensures Balance(journals[..i + 1], a, b) == Balance(journals[..i], a, b) + Sum(es, Moves(a, b))
        {
          BalanceAfter(journals[..i], journals[i], a, b);
        }
      }
      assert journals[..|journals|] == journals;
      var consistent := totals == Row(balances, a);
      assert consistent <==> forall b :: Column(Row(balances, a), b) == Column(totals, b) by {
        var row := Row(balances, a);
        if forall b :: Column(row, b) == Column(totals, b) {
          assert Column(row, AVAILABLE) == Column(totals, AVAILABLE) && Column(row, PENDING) == Column(totals, PENDING)
              && Column(row, SETTLING) == Column(totals, SETTLING) && Column(row, REVIEW_HOLD) == Column(totals, REVIEW_HOLD);
        }
      }
      return Ok(consistent);
    }

    /** Total debits against total credits, per currency, over the whole ledger. */
    method VerifyGlobalBalance() returns (balanced: bool)
      ensures balanced <==> forall c :: Sum(journals, JournalDebit(c)) == Sum(journals, JournalCredit(c))
    {
      var tomanDebit, tomanCredit := CurrencyTotals(TOMAN);
      var gramDebit, gramCredit := CurrencyTotals(GRAM);
      balanced := tomanDebit == tomanCredit && gramDebit == gramCredit;
      if balanced {
        forall c ensures Sum(journals, JournalDebit(c)) == Sum(journals, JournalCredit(c)) {
          match c case TOMAN => case GRAM =>
        }
      }
    }

    method CurrencyTotals(c: Currency) returns (debit: int, credit: int)
      ensures debit == Sum(journals, JournalDebit(c)) && credit == Sum(journals, JournalCredit(c))
    {
      debit, credit := 0, 0;
      for i := 0 to |journals|
        invariant debit == Sum(journals[..i], JournalDebit(c)) && credit == Sum(journals[..i], JournalCredit(c))
      {
        var es := journals[i].entries;
        for k := 0 to |es|
          invariant debit == Sum(journals[..i], JournalDebit(c)) + Sum(es[..k], DebitIn(c))
          invariant credit == Sum(journals[..i], JournalCredit(c)) + Sum(es[..k], CreditIn(c))
        {
          assert es[..k + 1] == es[..k] + [es[k]];
          SumAppend(es[..k], es[k], DebitIn(c));
          SumAppend(es[..k], es[k], CreditIn(c));
          if es[k].currency == c {
            debit, credit := debit + es[k].debit, credit + es[k].credit;
          }
        }
        assert es[..|es|] == es;
        assert journals[..i + 1] == journals[..i] + [journals[i]];
        SumAppend(journals[..i], journals[i], JournalDebit(c));
        SumAppend(journals[..i], journals[i], JournalCredit(c));
      }
      assert journals[..|journals|] == journals;
    }
  }
}
