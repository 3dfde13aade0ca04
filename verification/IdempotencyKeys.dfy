/**
 One idempotency key and everyone who uses it: each query of a caller is one step, steps of callers interleave freely,
 and a caller may crash between two of them.
 */
module IdempotencyKeys {
  import opened Basics

  datatype State = IN_PROGRESS | COMPLETED | FAILED

  /** A completed row has no lease. */
  datatype Row = Row(hash: string, state: State, owner: nat, lease: Option<int>, response: Option<string>)

  datatype Outcome = Executed(value: string) | Replayed(value: string) | StillInProgress | KeyReuse | Indeterminate | Threw

  // ---------------------------------------------------------------------------
  // The queries
  // ---------------------------------------------------------------------------

  function Claim(row: Option<Row>, hash: string, token: nat, until: int): (Option<Row>, bool) {
    if row.None? then (Some(Row(hash, IN_PROGRESS, token, Some(until), None)), true) else (row, false)
  }

  /** What the read tells a caller that did not get the claim: an answer, or that it may try to take over. */
  function Inspect(row: Option<Row>, hash: string, now: int): Option<Outcome> {
    match row
    case None => Some(Indeterminate)
    case Some(r) =>
      if r.hash != hash then Some(KeyReuse)
      else if r.state == COMPLETED then Some(Replayed(if r.response.Some? then r.response.value else "null"))
      else if (r.lease.Some? && r.lease.value <= now) || r.state == FAILED then None
      else Some(StillInProgress)
  }

  predicate Takeable(row: Option<Row>, now: int) {
    row.Some? && ((row.value.lease.Some? && row.value.lease.value <= now) || row.value.state == FAILED)
  }

  function Reclaim(row: Option<Row>, token: nat, until: int, now: int): (Option<Row>, bool) {
    if Takeable(row, now) then (Some(row.value.(owner := token, lease := Some(until), state := IN_PROGRESS)), true) else (row, false)
  }

  predicate Owned(row: Option<Row>, token: nat) { row.Some? && row.value.owner == token }

  function Complete(row: Option<Row>, token: nat, value: string): Option<Row> {
    if Owned(row, token) then Some(row.value.(state := COMPLETED, response := Some(value), lease := None)) else row
  }

  function Fail(row: Option<Row>, token: nat, now: int): Option<Row> {
    if Owned(row, token) then Some(row.value.(state := FAILED, lease := Some(now))) else row
  }

  // ---------------------------------------------------------------------------
  // Callers and runs
  // ---------------------------------------------------------------------------

  datatype Stage =
    | Reading
    | TakingOver
    | Running
    | Recording(value: string)
    | Failing
    | Returned(outcome: Outcome)
    | Crashed

  datatype Caller = Caller(hash: string, leaseTime: int, until: int, stage: Stage)

  /** `succeeded` logs the runs of the guarded function that returned, `recorded` the results written to the row. */
  datatype World = World(row: Option<Row>, callers: map<nat, Caller>, succeeded: seq<nat>, recorded: seq<string>)

  datatype Event =
    | Arrive(token: nat, hash: string, leaseTime: int, now: int)
    | Read(token: nat, now: int)
    | TakeOver(token: nat, now: int)
    | FnReturns(token: nat, value: string, now: int)
    | FnThrows(token: nat, now: int)
    | Record(token: nat, now: int)
    | RecordRefused(token: nat, now: int)
    | RecordUnanswered(token: nat, now: int)
    | MarkFailed(token: nat, now: int)
    | Crash(token: nat, now: int)

  function Move(w: World, token: nat, stage: Stage): World
    requires token in w.callers
  {
    w.(callers := w.callers[token := w.callers[token].(stage := stage)])
  }

  function Start(w: World, token: nat, until: int): World
    requires token in w.callers
  {
    w.(callers := w.callers[token := w.callers[token].(stage := Running, until := until)])
  }

  function AfterArrive(w: World, token: nat, hash: string, leaseTime: int, now: int): World {
    var (row, got) := Claim(w.row, hash, token, now + leaseTime);
    w.(row := row, callers := w.callers[token := Caller(hash, leaseTime, now + leaseTime, if got then Running else Reading)])
  }

  function AfterRead(w: World, token: nat, now: int): World
    requires token in w.callers
  {
    match Inspect(w.row, w.callers[token].hash, now)
    case None => Move(w, token, TakingOver)
    case Some(outcome) => Move(w, token, Returned(outcome))
  }

  function AfterTakeOver(w: World, token: nat, now: int): World
    requires token in w.callers
  {
    var until := now + w.callers[token].leaseTime;
    var (row, got) := Reclaim(w.row, token, until, now);
    if got then Start(w, token, until).(row := row) else Move(w, token, Returned(StillInProgress))
  }

  function AfterRecord(w: World, token: nat, value: string, next: Stage): World
    requires token in w.callers
  {
    Move(w, token, next).(row := Complete(w.row, token, value),
                          recorded := if Owned(w.row, token) then w.recorded + [value] else w.recorded)
  }

  /** Tokens are never reused; an event out of turn changes nothing. */
  function Next(w: World, e: Event): World {
    if e.Arrive? then if e.token in w.callers then w else AfterArrive(w, e.token, e.hash, e.leaseTime, e.now)
    else if e.token !in w.callers then w
    else
      var s := w.callers[e.token].stage;
      match e
      case Arrive(_, _, _, _) => w
      case Read(token, now) =>
        if s.Reading? then AfterRead(w, token, now) else w
      case TakeOver(token, now) => if s.TakingOver? then AfterTakeOver(w, token, now) else w
      case FnReturns(token, value, _) =>
        if s.Running? then Move(w, token, Recording(value)).(succeeded := w.succeeded + [token]) else w
      case FnThrows(token, _) => if s.Running? then Move(w, token, Failing) else w
      case Record(token, _) => if s.Recording? then AfterRecord(w, token, s.value, Returned(Executed(s.value))) else w
      case RecordRefused(token, _) => if s.Recording? then Move(w, token, Failing) else w
      case RecordUnanswered(token, _) => if s.Recording? then AfterRecord(w, token, s.value, Failing) else w
      case MarkFailed(token, now) =>
        if s.Failing? then Move(w, token, Returned(Threw)).(row := Fail(w.row, token, now)) else w
      case Crash(token, _) => if s.Returned? then w else Move(w, token, Crashed)
  }

  const Unused := World(None, map[], [], [])

  function Run(es: seq<Event>): World {
    if es == [] then Unused else Next(Run(es[..|es| - 1]), es[|es| - 1])
  }

  // ---------------------------------------------------------------------------
  // One query, exactly
  // ---------------------------------------------------------------------------

  /**
   What a caller finds: an unused key is its own to run; a key in use is answered by hash, then by state; and a row is
   taken over exactly when it failed or its lease ended, its request kept.
   */
  lemma AcquireAnswers(row: Option<Row>, hash: string, token: nat, leaseTime: int, now: int)
    ensures row == None ==>
      Claim(row, hash, token, now + leaseTime) == (Some(Row(hash, IN_PROGRESS, token, Some(now + leaseTime), None)), true)
    ensures row == None ==> Inspect(row, hash, now) == Some(Indeterminate) && Reclaim(row, token, now + leaseTime, now) == (None, false)
    ensures row.Some? ==>
      var r := row.value;
      var ended := r.state == FAILED || match r.lease case Some(until) => until <= now case None => false;
      && Claim(row, hash, token, now + leaseTime) == (row, false)
      && Inspect(row, hash, now)
         == (if hash != r.hash then Some(KeyReuse)
             else match r.state
                  case COMPLETED => Some(Replayed(match r.response case Some(x) => x case None => "null"))
                  case _ => if ended then None else Some(StillInProgress))
      && Reclaim(row, token, now + leaseTime, now)
         == (if ended then (Some(Row(r.hash, IN_PROGRESS, token, Some(now + leaseTime), r.response)), true) else (row, false))
  {
  }

  /** Only the owner writes its outcome; a completed row has no lease, a failed one may be taken over at once. */
  lemma OutcomeAnswers(r: Row, token: nat, value: string, now: int)
    ensures Complete(None, token, value) == None && Fail(None, token, now) == None
    ensures Complete(Some(r), token, value)
         == Some(if r.owner == token then Row(r.hash, COMPLETED, r.owner, None, Some(value)) else r)
    ensures Fail(Some(r), token, now)
         == Some(if r.owner == token then Row(r.hash, FAILED, r.owner, Some(now), r.response) else r)
  {
  }

  /** The caller runs the function, ran it, or was given a result. */
  predicate Served(s: Stage) {
    s.TakingOver? || s.Running? || s.Recording? || s.Failing? || (s.Returned? && (s.outcome.Executed? || s.outcome.Replayed?))
  }

  ghost predicate ServedHaveHash(w: World) {
    forall t :: t in w.callers && Served(w.callers[t].stage) ==> w.row.Some? && w.callers[t].hash == w.row.value.hash
  }

  lemma NextServesSameRequest(w: World, e: Event)
    requires ServedHaveHash(w) && (w.row.None? ==> w.callers == map[])
    ensures ServedHaveHash(Next(w, e)) && (Next(w, e).row.None? ==> Next(w, e).callers == map[])
  {
  }

  /** On every run, whoever runs the function or is given a result came with the request the key was first used for. */
  lemma {:induction false} OnlySameRequestIsServed(es: seq<Event>)
    ensures ServedHaveHash(Run(es)) && (Run(es).row.None? ==> Run(es).callers == map[])
  {
    if es != [] {
      OnlySameRequestIsServed(es[..|es| - 1]);
      NextServesSameRequest(Run(es[..|es| - 1]), es[|es| - 1]);
    }
  }

  // ---------------------------------------------------------------------------
  // When a completed row is final
  // ---------------------------------------------------------------------------

  predicate Working(s: Stage) { s.Running? || s.Recording? || s.Failing? }

  predicate Completed(row: Option<Row>) { row.Some? && row.value.state == COMPLETED }

  /** The owner of a completed row runs and records nothing more, and the row holds the last recorded result. */
  ghost predicate RowOk(w: World) {
    && (w.row.None? ==> w.callers == map[] && w.recorded == [])
    && (w.row.Some? ==>
          && w.row.value.owner in w.callers
          && (w.row.value.state == COMPLETED ==>
                && w.row.value.lease.None?
                && !w.callers[w.row.value.owner].stage.Running? && !w.callers[w.row.value.owner].stage.Recording?
                && w.row.value.response.Some? && w.recorded != [] && w.recorded[|w.recorded| - 1] == w.row.value.response.value)
          && (w.row.value.state != COMPLETED ==> w.row.value.lease.Some?))
  }

  /** The owner takes its error path although its result is in the row. */
  predicate Reopens(w: World, e: Event) {
    && Completed(w.row) && e.MarkFailed? && e.token == w.row.value.owner
    && e.token in w.callers && w.callers[e.token].stage.Failing?
  }

  lemma NextKeepsRow(w: World, e: Event)
    requires RowOk(w)
    ensures RowOk(Next(w, e))
    ensures w.row.Some? ==> Next(w, e).row.Some? && Next(w, e).row.value.hash == w.row.value.hash
  {
  }

  /** In a completed row nothing is written but by that step. */
  lemma CompletedStep(w: World, e: Event)
    requires RowOk(w) && Completed(w.row)
    ensures Next(w, e).row != w.row <==> Reopens(w, e)
    ensures !Reopens(w, e) ==> Next(w, e).recorded == w.recorded
  {
  }

  lemma {:induction false} RunKeepsRow(es: seq<Event>)
    ensures RowOk(Run(es))
  {
    if es != [] {
      RunKeepsRow(es[..|es| - 1]);
      NextKeepsRow(Run(es[..|es| - 1]), es[|es| - 1]);
    }
  }

  /** In every reachable world, exactly one step changes a completed row. */
  lemma CompletedRowChangesExactlyWhenReopened(es: seq<Event>, e: Event)
    requires Completed(Run(es).row)
    ensures Run(es + [e]).row != Run(es).row <==> Reopens(Run(es), e)
  {
    RunKeepsRow(es);
    CompletedStep(Run(es), e);
    assert (es + [e])[..|es|] == es;
  }

  ghost predicate NeverReopened(es: seq<Event>) {
    forall i :: 0 <= i < |es| ==> !Reopens(Run(es[..i]), es[i])
  }

  /** A row once completed keeps its content to the end of the run. */
  ghost predicate CompletedIsFinal(es: seq<Event>) {
    forall i, j :: 0 <= i <= j <= |es| && Completed(Run(es[..i]).row) ==> Run(es[..j]).row == Run(es[..i]).row
  }

  lemma LastStep(es: seq<Event>, j: nat)
    requires NeverReopened(es) && 0 < j <= |es| && Completed(Run(es[..j - 1]).row)
    ensures Run(es[..j]).row == Run(es[..j - 1]).row
  {
    CompletedRowChangesExactlyWhenReopened(es[..j - 1], es[j - 1]);
    assert es[..j - 1] + [es[j - 1]] == es[..j];
    assert !Reopens(Run(es[..j - 1]), es[j - 1]);
  }

  lemma {:induction false} CompletedStays(rows: seq<Option<Row>>, i: nat, j: nat)
    requires i <= j < |rows| && Completed(rows[i])
    requires forall k :: i <= k < j && Completed(rows[k]) ==> rows[k + 1] == rows[k]
    ensures rows[j] == rows[i]
    decreases j
  {
    if i < j {
      CompletedStays(rows, i, j - 1);
    }
  }

  /** The row before each step, and at the end. */
  function Rows(es: seq<Event>): (rows: seq<Option<Row>>)
    ensures |rows| == |es| + 1 && forall k :: 0 <= k <= |es| ==> rows[k] == Run(es[..k]).row
  {
    seq(|es| + 1, k requires 0 <= k <= |es| => Run(es[..k]).row)
  }

  lemma RowStays(es: seq<Event>, i: nat, j: nat)
    requires NeverReopened(es) && i <= j <= |es| && Completed(Run(es[..i]).row)
    ensures Run(es[..j]).row == Run(es[..i]).row
  {
    var rows := Rows(es);
    forall k | i <= k < j && Completed(rows[k]) ensures rows[k + 1] == rows[k] {
      LastStep(es, k + 1);
    }
    CompletedStays(rows, i, j);
  }

  lemma FinalExactlyWhenNeverReopened(es: seq<Event>)
    ensures CompletedIsFinal(es) <==> NeverReopened(es)
  {
    if NeverReopened(es) {
      forall i, j | 0 <= i <= j <= |es| && Completed(Run(es[..i]).row) ensures Run(es[..j]).row == Run(es[..i]).row {
        RowStays(es, i, j);
      }
    } else {
      var i :| 0 <= i < |es| && Reopens(Run(es[..i]), es[i]);
      ReopenedIsNotFinal(es, i);
    }
  }

  lemma ReopenedIsNotFinal(es: seq<Event>, i: nat)
    requires i < |es| && Reopens(Run(es[..i]), es[i])
    ensures Completed(Run(es[..i]).row) && Run(es[..i + 1]).row != Run(es[..i]).row
  {
    CompletedRowChangesExactlyWhenReopened(es[..i], es[i]);
    assert es[..i] + [es[i]] == es[..i + 1];
  }

  /** If no step reopens the row, at most one result is ever recorded, and a completed row holds it. */
  lemma {:induction false} OneResultRecorded(es: seq<Event>)
    requires NeverReopened(es)
    ensures Completed(Run(es).row) ==>
              Run(es).row.value.response.Some? && Run(es).recorded == [Run(es).row.value.response.value]
    ensures !Completed(Run(es).row) ==> Run(es).recorded == []
  {
    if es != [] {
      var init, e := es[..|es| - 1], es[|es| - 1];
      forall i | 0 <= i < |init| ensures !Reopens(Run(init[..i]), init[i]) {
        assert init[..i] == es[..i];
      }
      OneResultRecorded(init);
      RunKeepsRow(init);
      assert !Reopens(Run(es[..|init|]), es[|init|]);
      ResultStep(Run(init), e);
    }
  }

  lemma ResultStep(w: World, e: Event)
    requires RowOk(w) && !Reopens(w, e)
    requires Completed(w.row) ==> w.recorded == [w.row.value.response.value]
    requires !Completed(w.row) ==> w.recorded == []
    ensures var next := Next(w, e);
            && (Completed(next.row) ==> next.row.value.response.Some? && next.recorded == [next.row.value.response.value])
            && (!Completed(next.row) ==> next.recorded == [])
  {
    NextKeepsRow(w, e);
    if Completed(w.row) {
      CompletedStep(w, e);
    }
  }

  /** Once completed, and if no step reopens it, whoever reads the row with the same request gets its result, others an error. */
  lemma CompletedIsReplayed(es: seq<Event>, i: nat, hash: string, now: int)
    requires NeverReopened(es) && i <= |es| && Completed(Run(es[..i]).row)
    ensures Run(es).row == Run(es[..i]).row && |Run(es).recorded| == 1
    ensures Inspect(Run(es).row, hash, now)
         == Some(if hash == Run(es).row.value.hash then Replayed(Run(es).recorded[0]) else KeyReuse)
    ensures !Takeable(Run(es).row, now)
  {
    RowStays(es, i, |es|);
    assert es[..|es|] == es;
    OneResultRecorded(es);
    RunKeepsRow(es);
  }

  /** The first caller's reply is lost after its write; its error path reopens the row for the second caller. */
  function LostReplyRun(hash: string, leaseTime: int, first: string, second: string): (es: seq<Event>)
    ensures |es| == 9
  {
    [Arrive(0, hash, leaseTime, 0), FnReturns(0, first, 1), RecordUnanswered(0, 2), MarkFailed(0, 3),
     Arrive(1, hash, leaseTime, 4), Read(1, 4), TakeOver(1, 4), FnReturns(1, second, 5), Record(1, 6)]
  }

  /** The world before the i-th step of that run. */
  function LostReplyWorld(hash: string, leaseTime: int, first: string, second: string, i: nat): World {
    if i == 0 then Unused
    else
      var row := if i < 3 then Row(hash, IN_PROGRESS, 0, Some(leaseTime), None)
                 else if i == 3 then Row(hash, COMPLETED, 0, None, Some(first))
                 else if i < 7 then Row(hash, FAILED, 0, Some(3), Some(first))
                 else if i < 9 then Row(hash, IN_PROGRESS, 1, Some(4 + leaseTime), Some(first))
                 else Row(hash, COMPLETED, 1, None, Some(second));
      var loser := Caller(hash, leaseTime, leaseTime,
                          if i == 1 then Running else if i == 2 then Recording(first)
                          else if i == 3 then Failing else Returned(Threw));
      var taker := Caller(hash, leaseTime, 4 + leaseTime,
                          if i == 5 then Reading else if i == 6 then TakingOver else if i == 7 then Running
                          else if i == 8 then Recording(second) else Returned(Executed(second)));
      World(Some(row), if i < 5 then map[0 := loser] else map[0 := loser, 1 := taker],
            if i < 2 then [] else if i < 8 then [0] else [0, 1],
            if i < 3 then [] else if i < 9 then [first] else [first, second])
  }

  lemma LostReplyStep(hash: string, leaseTime: int, first: string, second: string, i: nat)
    requires i < 9
    ensures Next(LostReplyWorld(hash, leaseTime, first, second, i), LostReplyRun(hash, leaseTime, first, second)[i])
         == LostReplyWorld(hash, leaseTime, first, second, i + 1)
  {
  }

  lemma {:induction false} LostReplyWorlds(hash: string, leaseTime: int, first: string, second: string, i: nat)
    requires i <= 9
    ensures Run(LostReplyRun(hash, leaseTime, first, second)[..i]) == LostReplyWorld(hash, leaseTime, first, second, i)
  {
    if i > 0 {
      var es := LostReplyRun(hash, leaseTime, first, second);
      LostReplyWorlds(hash, leaseTime, first, second, i - 1);
      LostReplyStep(hash, leaseTime, first, second, i - 1);
      assert es[..i][..i - 1] == es[..i - 1];
    }
  }

  /** So whatever the lease, two different results can be recorded for one request, the second one over the first. */
  lemma LostReplyRecordsTwice(hash: string, leaseTime: int, first: string, second: string)
    ensures var es := LostReplyRun(hash, leaseTime, first, second);
            && Completed(Run(es[..3]).row) && Run(es[..3]).row.value.response == Some(first)
            && Reopens(Run(es[..3]), es[3])
            && Completed(Run(es).row) && Run(es).row.value.response == Some(second)
            && Run(es).recorded == [first, second]
  {
    var es := LostReplyRun(hash, leaseTime, first, second);
    LostReplyWorlds(hash, leaseTime, first, second, 3);
    LostReplyWorlds(hash, leaseTime, first, second, 9);
    assert es[..9] == es;
  }

  // ---------------------------------------------------------------------------
  // Inside its lease, the function succeeds at most once
  // ---------------------------------------------------------------------------

  predicate Interrupts(e: Event, token: nat) {
    e.token == token && (e.Crash? || e.RecordRefused? || e.RecordUnanswered?)
  }

  /** A run of the function that succeeds does so, and gets its result written, before its lease is over. */
  predicate Prompt(w: World, e: Event) {
    && (e.FnReturns? && e.token in w.callers && w.callers[e.token].stage.Running? ==> e.now < w.callers[e.token].until)
    && (forall t :: t in w.callers && w.callers[t].stage.Recording? ==> e.now < w.callers[t].until && !Interrupts(e, t))
  }

  ghost predicate PromptRun(es: seq<Event>) {
    && (forall i :: 0 <= i < |es| ==> Prompt(Run(es[..i]), es[i]))
    && (forall i, j :: 0 <= i < j < |es| ==> es[i].now <= es[j].now)
  }

  predicate Holds(w: World, t: nat)
    requires t in w.callers
  {
    w.row.Some? && w.row.value.owner == t && w.row.value.state == IN_PROGRESS && w.row.value.lease == Some(w.callers[t].until)
  }

  /** Whoever still runs holds the row or is past its lease; a success is being recorded by the holder or is in the row. */
  ghost predicate Once(w: World, now: int) {
    && (forall t :: t in w.callers && w.callers[t].stage.Running? ==> Holds(w, t) || w.callers[t].until <= now)
    && (forall t :: t in w.callers && w.callers[t].stage.Recording? ==> Holds(w, t) && w.succeeded == [t])
    && (w.row.Some? && w.row.value.state == COMPLETED ==>
          w.row.value.owner in w.callers && !Working(w.callers[w.row.value.owner].stage))
    && |w.succeeded| <= 1
    && (|w.succeeded| == 1 ==>
          && w.row.Some?
          && (w.row.value.state == COMPLETED
              || (w.succeeded[0] in w.callers && w.callers[w.succeeded[0]].stage.Recording?)))
  }

  /** Time passing alone keeps everything: a recording caller still holds its lease. */
  lemma OnceLater(w: World, now: int, later: int)
    requires Once(w, now) && now <= later
    ensures Once(w, later)
  {
  }

  lemma ArriveKeepsOnce(w: World, token: nat, hash: string, leaseTime: int, now: int)
    requires RowOk(w) && Once(w, now) && token !in w.callers
    ensures Once(AfterArrive(w, token, hash, leaseTime, now), now)
  {
  }

  lemma TakeOverKeepsOnce(w: World, token: nat, now: int)
    requires RowOk(w) && Once(w, now) && token in w.callers && w.callers[token].stage.TakingOver?
    requires forall t :: t in w.callers && w.callers[t].stage.Recording? ==> now < w.callers[t].until
    ensures Once(AfterTakeOver(w, token, now), now)
  {
  }

  lemma ReturnKeepsOnce(w: World, token: nat, value: string, now: int)
    requires RowOk(w) && Once(w, now) && token in w.callers && w.callers[token].stage.Running? && now < w.callers[token].until
    ensures Once(Move(w, token, Recording(value)).(succeeded := w.succeeded + [token]), now)
  {
    assert Holds(w, token);
  }

  lemma RecordKeepsOnce(w: World, token: nat, value: string, now: int)
    requires RowOk(w) && Once(w, now) && token in w.callers && w.callers[token].stage.Recording?
    ensures Once(AfterRecord(w, token, value, Returned(Executed(value))), now)
  {
    assert Holds(w, token);
  }

  /** A caller that is not recording gives up running, fails or answers. */
  lemma LeaveKeepsOnce(w: World, token: nat, stage: Stage, now: int)
    requires RowOk(w) && Once(w, now) && token in w.callers && !w.callers[token].stage.Recording?
    requires stage.TakingOver? || stage.Returned? || stage.Crashed? || (stage.Failing? && w.callers[token].stage.Running?)
    ensures Once(Move(w, token, stage), now)
  {
  }

  lemma MarkFailedKeepsOnce(w: World, token: nat, now: int)
    requires RowOk(w) && Once(w, now) && token in w.callers && w.callers[token].stage.Failing?
    ensures Once(Move(w, token, Returned(Threw)).(row := Fail(w.row, token, now)), now)
  {
  }

  lemma NextKeepsOnce(w: World, e: Event, now: int)
    requires RowOk(w) && Once(w, now) && now <= e.now && Prompt(w, e)
    ensures Once(Next(w, e), e.now)
  {
    OnceLater(w, now, e.now);
    if e.Arrive? {
      if e.token !in w.callers { ArriveKeepsOnce(w, e.token, e.hash, e.leaseTime, e.now); }
    } else if e.token in w.callers {
      var s := w.callers[e.token].stage;
      match e
      case Arrive(_, _, _, _) =>
      case Read(token, t) => if s.Reading? {
        var seen := Inspect(w.row, w.callers[token].hash, t);
        LeaveKeepsOnce(w, token, if seen.Some? then Returned(seen.value) else TakingOver, t);
      }
      case TakeOver(token, t) => if s.TakingOver? { TakeOverKeepsOnce(w, token, t); }
      case FnReturns(token, value, t) => if s.Running? { ReturnKeepsOnce(w, token, value, t); }
      case FnThrows(token, t) => if s.Running? { LeaveKeepsOnce(w, token, Failing, t); }
      case Record(token, t) => if s.Recording? { RecordKeepsOnce(w, token, s.value, t); }
      case RecordRefused(token, t) =>
      case RecordUnanswered(token, t) =>
      case MarkFailed(token, t) => if s.Failing? { MarkFailedKeepsOnce(w, token, t); }
      case Crash(token, t) => if !s.Returned? { LeaveKeepsOnce(w, token, Crashed, t); }
    }
  }

  lemma {:induction false} RunKeepsOnce(es: seq<Event>)
    requires PromptRun(es)
    ensures es != [] ==> Once(Run(es), es[|es| - 1].now)
  {
    if es != [] {
      var init, e := es[..|es| - 1], es[|es| - 1];
      forall i | 0 <= i < |init| ensures Prompt(Run(init[..i]), init[i]) {
        assert init[..i] == es[..i];
      }
      RunKeepsOnce(init);
      RunKeepsRow(init);
      assert Prompt(Run(es[..|es| - 1]), es[|es| - 1]);
      NextKeepsOnce(Run(init), e, if init == [] then e.now else init[|init| - 1].now);
    }
  }

  /** If every run of the function that succeeds ends inside its lease, it succeeds at most once. */
  lemma SucceedsAtMostOnce(es: seq<Event>)
    requires PromptRun(es)
    ensures |Run(es).succeeded| <= 1
  {
    RunKeepsOnce(es);
  }

  /** Every run of the function that succeeds returns inside its lease. */
  ghost predicate ReturnsInLease(es: seq<Event>) {
    forall i :: 0 <= i < |es| && es[i].FnReturns? && es[i].token in Run(es[..i]).callers
                && Run(es[..i]).callers[es[i].token].stage.Running? ==>
      es[i].now < Run(es[..i]).callers[es[i].token].until
  }

  /** Caller 0 returns at once and crashes before it records; caller 1 takes over when its lease is over. */
  function CrashRun(hash: string, leaseTime: nat, first: string, second: string): (es: seq<Event>)
    ensures |es| == 8
  {
    [Arrive(0, hash, leaseTime, 0), FnReturns(0, first, 0), Crash(0, 0), Arrive(1, hash, leaseTime, leaseTime),
     Read(1, leaseTime), TakeOver(1, leaseTime), FnReturns(1, second, leaseTime), Record(1, leaseTime)]
  }

  /** The world before the i-th step of that run. */
  function CrashWorld(hash: string, leaseTime: nat, first: string, second: string, i: nat): World {
    if i == 0 then Unused
    else
      var row := if i < 6 then Row(hash, IN_PROGRESS, 0, Some(leaseTime), None)
                 else if i < 8 then Row(hash, IN_PROGRESS, 1, Some(2 * leaseTime), None)
                 else Row(hash, COMPLETED, 1, None, Some(second));
      var crashed := Caller(hash, leaseTime, leaseTime, if i == 1 then Running else if i == 2 then Recording(first) else Crashed);
      var taker := Caller(hash, leaseTime, 2 * leaseTime,
                          if i == 4 then Reading else if i == 5 then TakingOver else if i == 6 then Running
                          else if i == 7 then Recording(second) else Returned(Executed(second)));
      World(Some(row), if i < 4 then map[0 := crashed] else map[0 := crashed, 1 := taker],
            if i < 2 then [] else if i < 7 then [0] else [0, 1], if i < 8 then [] else [second])
  }

  lemma CrashStep(hash: string, leaseTime: nat, first: string, second: string, i: nat)
    requires i < 8
    ensures Next(CrashWorld(hash, leaseTime, first, second, i), CrashRun(hash, leaseTime, first, second)[i])
         == CrashWorld(hash, leaseTime, first, second, i + 1)
  {
  }

  lemma {:induction false} CrashWorlds(hash: string, leaseTime: nat, first: string, second: string, i: nat)
    requires i <= 8
    ensures Run(CrashRun(hash, leaseTime, first, second)[..i]) == CrashWorld(hash, leaseTime, first, second, i)
  {
    if i > 0 {
      var es := CrashRun(hash, leaseTime, first, second);
      CrashWorlds(hash, leaseTime, first, second, i - 1);
      CrashStep(hash, leaseTime, first, second, i - 1);
      assert es[..i][..i - 1] == es[..i - 1];
    }
  }

  /** Returning inside the lease is not enough, whatever the lease: the result must be recorded too. */
  lemma CrashRunSucceedsTwice(hash: string, leaseTime: nat, first: string, second: string)
    requires leaseTime > 0
    ensures var es := CrashRun(hash, leaseTime, first, second);
            ReturnsInLease(es) && Run(es).succeeded == [0, 1] && Run(es).recorded == [second]
  {
    var es := CrashRun(hash, leaseTime, first, second);
    forall i | 0 <= i < |es| && es[i].FnReturns? ensures es[i].token in Run(es[..i]).callers
        && es[i].now < Run(es[..i]).callers[es[i].token].until {
      CrashWorlds(hash, leaseTime, first, second, i);
    }
    CrashWorlds(hash, leaseTime, first, second, 8);
    assert es[..8] == es;
  }

  // ---------------------------------------------------------------------------
  // How long a lease must be
  // ---------------------------------------------------------------------------

  /** From claim to recorded result a run of the function that succeeds takes at most `limit`, with no crash or refusal. */
  predicate Timely(w: World, e: Event, limit: int) {
    && (e.FnReturns? && e.token in w.callers && w.callers[e.token].stage.Running? ==>
          e.now <= w.callers[e.token].until - w.callers[e.token].leaseTime + limit)
    && (forall t :: t in w.callers && w.callers[t].stage.Recording? ==>
          e.now <= w.callers[t].until - w.callers[t].leaseTime + limit && !Interrupts(e, t))
  }

  /** Every caller leases for `leaseTime`, time does not run backwards, and every success is timely. */
  ghost predicate TimelyRun(es: seq<Event>, leaseTime: int, limit: int) {
    && (forall i :: 0 <= i < |es| ==> Timely(Run(es[..i]), es[i], limit))
    && (forall i :: 0 <= i < |es| && es[i].Arrive? ==> es[i].leaseTime == leaseTime)
    && (forall i, j :: 0 <= i < j < |es| ==> es[i].now <= es[j].now)
  }

  ghost predicate AllLease(w: World, leaseTime: int) {
    forall t :: t in w.callers ==> w.callers[t].leaseTime == leaseTime
  }

  lemma {:induction false} RunLeases(es: seq<Event>, leaseTime: int)
    requires forall i :: 0 <= i < |es| && es[i].Arrive? ==> es[i].leaseTime == leaseTime
    ensures AllLease(Run(es), leaseTime)
  {
    if es != [] {
      RunLeases(es[..|es| - 1], leaseTime);
    }
  }

  lemma TimelyIsPrompt(es: seq<Event>, leaseTime: int, limit: int)
    requires TimelyRun(es, leaseTime, limit) && limit < leaseTime
    ensures PromptRun(es)
  {
    forall i | 0 <= i < |es| ensures Prompt(Run(es[..i]), es[i]) {
      RunLeases(es[..i], leaseTime);
      assert Timely(Run(es[..i]), es[i], limit);
    }
  }

  function TakeOverTime(leaseTime: int): nat { if leaseTime < 0 then 0 else leaseTime }

  /** Caller 1 takes over as soon as the lease of caller 0 is over; caller 0 succeeds at the very end of the limit. */
  function LateRun(hash: string, value: string, leaseTime: int, limit: nat): (es: seq<Event>)
    ensures |es| == 8
  {
    var t := TakeOverTime(leaseTime);
    [Arrive(0, hash, leaseTime, 0), Arrive(1, hash, leaseTime, t), Read(1, t), TakeOver(1, t), FnReturns(1, value, t),
     Record(1, t), FnReturns(0, value, limit), Record(0, limit)]
  }

  /** The world before the i-th step of that run. */
  function LateWorld(hash: string, value: string, leaseTime: int, i: nat): World {
    if i == 0 then Unused
    else
      var until := TakeOverTime(leaseTime) + leaseTime;
      var row := if i < 4 then Row(hash, IN_PROGRESS, 0, Some(leaseTime), None)
                 else if i < 6 then Row(hash, IN_PROGRESS, 1, Some(until), None)
                 else Row(hash, COMPLETED, 1, None, Some(value));
      var late := Caller(hash, leaseTime, leaseTime,
                         if i < 7 then Running else if i == 7 then Recording(value) else Returned(Executed(value)));
      var taker := Caller(hash, leaseTime, until,
                          if i == 2 then Reading else if i == 3 then TakingOver else if i == 4 then Running
                          else if i == 5 then Recording(value) else Returned(Executed(value)));
      World(Some(row), if i == 1 then map[0 := late] else map[0 := late, 1 := taker],
            if i < 5 then [] else if i < 7 then [1] else [1, 0], if i < 6 then [] else [value])
  }

  lemma LateStep(hash: string, value: string, leaseTime: int, limit: nat, i: nat)
    requires leaseTime <= limit && i < 8
    ensures var w, e := LateWorld(hash, value, leaseTime, i), LateRun(hash, value, leaseTime, limit)[i];
            Next(w, e) == LateWorld(hash, value, leaseTime, i + 1) && Timely(w, e, limit)
  {
  }

  lemma {:induction false} LateRunWorlds(hash: string, value: string, leaseTime: int, limit: nat, i: nat)
    requires leaseTime <= limit && i <= 8
    ensures Run(LateRun(hash, value, leaseTime, limit)[..i]) == LateWorld(hash, value, leaseTime, i)
  {
    if i > 0 {
      var es := LateRun(hash, value, leaseTime, limit);
      LateRunWorlds(hash, value, leaseTime, limit, i - 1);
      LateStep(hash, value, leaseTime, limit, i - 1);
      assert es[..i][..i - 1] == es[..i - 1];
    }
  }

  lemma LateTimes(hash: string, value: string, leaseTime: int, limit: nat, i: nat)
    requires i < 8
    ensures var e := LateRun(hash, value, leaseTime, limit)[i];
            && e.now == (if i == 0 then 0 else if i < 6 then TakeOverTime(leaseTime) else limit)
            && (e.Arrive? ==> e.leaseTime == leaseTime)
  {
  }

  /** A limit that reaches the lease, however long, admits a run in which the function succeeds twice. */
  lemma LateRunSucceedsTwice(hash: string, value: string, leaseTime: int, limit: nat)
    requires leaseTime <= limit
    ensures TimelyRun(LateRun(hash, value, leaseTime, limit), leaseTime, limit)
    ensures Run(LateRun(hash, value, leaseTime, limit)).succeeded == [1, 0]
  {
    var es := LateRun(hash, value, leaseTime, limit);
    LateRunIsTimely(es, hash, value, leaseTime, limit);
    LateRunWorlds(hash, value, leaseTime, limit, 8);
    assert es[..8] == es;
  }

  lemma LateRunIsTimely(es: seq<Event>, hash: string, value: string, leaseTime: int, limit: nat)
    requires leaseTime <= limit && es == LateRun(hash, value, leaseTime, limit)
    ensures TimelyRun(es, leaseTime, limit)
  {
    forall i | 0 <= i < |es|
      ensures Timely(Run(es[..i]), es[i], limit) && (es[i].Arrive? ==> es[i].leaseTime == leaseTime)
      ensures es[i].now == (if i == 0 then 0 else if i < 6 then TakeOverTime(leaseTime) else limit)
    {
      LateRunWorlds(hash, value, leaseTime, limit, i);
      LateStep(hash, value, leaseTime, limit, i);
      LateTimes(hash, value, leaseTime, limit, i);
    }
  }

  /** Leases of one length make the function succeed at most once in every timely run exactly when they exceed the limit. */
  lemma SucceedsOnceExactlyWhenLeaseIsLonger(leaseTime: int, limit: nat)
    ensures (forall es :: TimelyRun(es, leaseTime, limit) ==> |Run(es).succeeded| <= 1) <==> limit < leaseTime
  {
    if limit < leaseTime {
      forall es | TimelyRun(es, leaseTime, limit) ensures |Run(es).succeeded| <= 1 {
        TimelyIsPrompt(es, leaseTime, limit);
        SucceedsAtMostOnce(es);
      }
    } else {
      LateRunSucceedsTwice("", "", leaseTime, limit);
    }
  }
}
