/** The idempotency table and one undisturbed call through it; each query touches only the row of its own key. */
module Idempotency {
  import opened Basics
  import K = IdempotencyKeys
  import opened IdempotencyKeys

  datatype Key = Key(namespace: string, key: string)

  datatype CallError = InvalidKey | Failed(outcome: Outcome)

  function RowOf(rows: map<Key, Row>, k: Key): Option<Row> { if k in rows then Some(rows[k]) else None }

  function With(rows: map<Key, Row>, k: Key, row: Option<Row>): map<Key, Row> {
    if row.Some? then rows[k := row.value] else rows
  }

  class IdempotencyTable {
    var rows: map<Key, Row>

    constructor ()
      ensures rows == map[]
    {
      rows := map[];
    }

    method InsertClaim(k: Key, hash: string, token: nat, until: int) returns (got: bool)
      modifies this
      ensures var (row, claimed) := Claim(RowOf(old(rows), k), hash, token, until);
              got == claimed && rows == With(old(rows), k, row)
    {
      if k in rows { return false; }
      rows := rows[k := Row(hash, IN_PROGRESS, token, Some(until), None)];
      return true;
    }

    method TakeOverLease(k: Key, token: nat, until: int, now: int) returns (got: bool)
      modifies this
      ensures var (row, taken) := Reclaim(RowOf(old(rows), k), token, until, now);
              got == taken && rows == With(old(rows), k, row)
    {
      if k !in rows { return false; }
      var row := rows[k];
      if !(row.lease.Some? && row.lease.value <= now) && row.state != FAILED { return false; }
      rows := rows[k := row.(owner := token, lease := Some(until), state := IN_PROGRESS)];
      return true;
    }

    method RecordResult(k: Key, token: nat, value: string)
      modifies this
      ensures rows == With(old(rows), k, Complete(RowOf(old(rows), k), token, value))
    {
      if k in rows && rows[k].owner == token {
        rows := rows[k := rows[k].(state := COMPLETED, response := Some(value), lease := None)];
      }
    }

    method RecordFailure(k: Key, token: nat, now: int)
      modifies this
      ensures rows == With(old(rows), k, Fail(RowOf(old(rows), k), token, now))
    {
      if k in rows && rows[k].owner == token {
        rows := rows[k := rows[k].(state := FAILED, lease := Some(now))];
      }
    }

    /** Whether this caller may run the function, and if not what it is told. */
    method Acquire(k: Key, hash: string, token: nat, leaseTime: int, now: int) returns (answer: Option<Outcome>)
      modifies this
      ensures var claimed := Claim(RowOf(old(rows), k), hash, token, now + leaseTime);
              var taken := Reclaim(RowOf(old(rows), k), token, now + leaseTime, now);
              if claimed.1 then answer == None && rows == With(old(rows), k, claimed.0)
              else match Inspect(RowOf(old(rows), k), hash, now)
                   case Some(outcome) => answer == Some(outcome) && rows == old(rows)
                   case None => answer == None && taken.1 && rows == With(old(rows), k, taken.0)
    {
      var got := InsertClaim(k, hash, token, now + leaseTime);
      if got { return None; }
      var seen := Inspect(RowOf(rows, k), hash, now);
      if seen.Some? { return seen; }
      got := TakeOverLease(k, token, now + leaseTime, now);
      return if got then None else Some(StillInProgress);
    }

    /** One call with nobody else in between; `fn` is what the guarded function gives, None when it throws. */
    method RunIdempotent(k: Key, hash: string, token: nat, leaseTime: int, now: int, fn: Option<string>)
      returns (r: Result<Outcome, CallError>)
      modifies this
      ensures |k.key| == 0 || |k.key| > 255 ==> r == Err(InvalidKey) && rows == old(rows)
      ensures 0 < |k.key| <= 255 && k !in old(rows) && fn.Some? ==>
        r == Ok(Executed(fn.value))
        && rows == old(rows)[k := Row(hash, COMPLETED, token, None, Some(fn.value))]
      ensures 0 < |k.key| <= 255 && k in old(rows) && old(rows)[k].state == COMPLETED && old(rows)[k].response.Some? ==>
        rows == old(rows)
        && r == if old(rows)[k].hash == hash then Ok(Replayed(old(rows)[k].response.value)) else Err(Failed(KeyReuse))
      ensures r.Ok? && r.value.Executed? ==>
        fn == Some(r.value.value) && k in rows && rows[k].state == COMPLETED && rows[k].response == fn && rows[k].hash == hash
      ensures forall other :: other in old(rows) && other != k ==> other in rows && rows[other] == old(rows)[other]
    {
      if |k.key| == 0 || |k.key| > 255 { return Err(InvalidKey); }
      var answer := Acquire(k, hash, token, leaseTime, now);
      if answer.Some? {
        return if answer.value.KeyReuse? || answer.value.Indeterminate? then Err(Failed(answer.value)) else Ok(answer.value);
      }
      if fn.None? {
        RecordFailure(k, token, now);
        return Err(Failed(Threw));
      }
      RecordResult(k, token, fn.value);
      return Ok(Executed(fn.value));
    }
  }
}
