/** Why a payout needs one worker at a time: two that broadcast it together can pay a payout that ends FAILED. */
module TwoWorkers {
  import opened Basics
  import opened Pipeline
  import opened PipelineTheorems
  import opened PayoutRows
  import opened Protocol
  import Sample = SamplePayout

  /** A second worker with stages of its own, in the same database and on the same chain. */
  datatype Shared = Shared(world: World, second: map<nat, Stage>)

  datatype Turn = First(event: Event) | Second(event: Event)

  ghost function Take(s: Shared, t: Turn): Shared {
    match t
    case First(e) => s.(world := Next(s.world, e))
    case Second(e) =>
      var next := Next(s.world.(stages := s.second), e);
      Shared(next.(stages := s.world.stages), next.stages)
  }

  ghost function TakeAll(s: Shared, ts: seq<Turn>): Shared {
    if ts == [] then s else Take(TakeAll(s, ts[..|ts| - 1]), ts[|ts| - 1])
  }

  function BothPrepare(p: nat, now: int, wallet: Option<Wallet>): seq<Turn> {
    [First(Prepare(p, now, true, wallet)), Second(Prepare(p, now, true, wallet))]
  }

  /** The second worker's send times out unsent; it finds nothing on the chain and fails the payout. */
  function SecondGivesUp(p: nat, now: int): seq<Turn> {
    [Second(Event.Send(p, INDETERMINATE, false)), Second(RecordSend(p, None, now)),
     Second(ObserveAbsent(p)), Second(Reset(p, now)), Second(Fail(p, now))]
  }

  function FirstSends(p: nat, transfer: nat): seq<Turn> {
    [First(Event.Send(p, ACCEPTED, true)), First(Land(transfer))]
  }

  lemma {:induction false} TakeAllConcat(s: Shared, a: seq<Turn>, b: seq<Turn>)
    ensures TakeAll(s, a + b) == TakeAll(TakeAll(s, a), b)
  {
    if b == [] {
      assert a + b == a;
    } else {
      assert (a + b)[..|a + b| - 1] == a + b[..|b| - 1];
      TakeAllConcat(s, a, b[..|b| - 1]);
    }
  }

  lemma TakeTwo(s: Shared, x: Turn, y: Turn)
    ensures TakeAll(s, [x, y]) == Take(Take(s, x), y)
  {
    assert [x, y][..1] == [x] && [x][..0] == [];
    assert TakeAll(s, [x]) == Take(s, x);
  }

  lemma TakeFive(s: Shared, a: Turn, b: Turn, c: Turn, d: Turn, e: Turn)
    ensures TakeAll(s, [a, b, c, d, e]) == Take(Take(Take(Take(Take(s, a), b), c), d), e)
  {
    assert [a, b] + [c, d] + [e] == [a, b, c, d, e];
    TakeAllConcat(s, [a, b] + [c, d], [e]);
    TakeAllConcat(s, [a, b], [c, d]);
    TakeTwo(s, a, b);
    TakeTwo(TakeAll(s, [a, b]), c, d);
    assert [e][..0] == [];
  }

  /** Preparing again finds what preparing once found. */
  lemma PreparedTwice(db: Db, p: nat, now: int, wallet: Option<Wallet>)
    requires PrepareBroadcast(db, p, now, true, wallet).result.Ok? && PrepareBroadcast(db, p, now, true, wallet).result.value.Send?
    ensures var once := PrepareBroadcast(db, p, now, true, wallet);
            var twice := PrepareBroadcast(once.db, p, now, true, wallet);
            && twice.result == once.result && p < |db.payouts|
            && once.db.payouts[p].status == twice.db.payouts[p].status == SIGNED
  {
  }

  lemma FailedRow(db: Db, p: nat, now: int)
    requires FailPayout(db, p, now).result == Ok(true)
    ensures p < |FailPayout(db, p, now).db.payouts| && FailPayout(db, p, now).db.payouts[p].status == FAILED
  {
  }

  /** A signed payout can be marked UNKNOWN, reset and failed. */
  lemma UnknownThenFailed(db: Db, p: nat, now: int)
    requires Reachable(db) && p < |db.payouts| && db.payouts[p].status == SIGNED
    ensures var unknown := MarkUnknown(db, p, now).db;
            var reset := ResetNotFound(unknown, p, now).db;
            var failed := FailPayout(reset, p, now).db;
            && p < |unknown.payouts| && unknown.payouts[p].status == UNKNOWN
            && p < |failed.payouts| && failed.payouts[p].status == FAILED
  {
    ReachableConforms(db);
    var unknown := MarkUnknown(db, p, now).db;
    assert unknown.payouts[p].status == UNKNOWN;
    var reset := ResetNotFound(unknown, p, now).db;
    ReachableApply(db, OpMarkUnknown(p, now));
    assert Apply(db, OpMarkUnknown(p, now)) == unknown;
    ReachableApply(unknown, OpResetNotFound(p, now));
    assert Apply(unknown, OpResetNotFound(p, now)) == reset;
    FailingNeverOverdraws(reset, p, now);
    FailedRow(reset, p, now);
  }

  lemma PrepareBoth(s: Shared, p: nat, now: int, wallet: Option<Wallet>)
    requires StageOf(s.world, p).Idle? && p !in s.second
    requires PrepareBroadcast(s.world.db, p, now, true, wallet).result.Ok?
    requires PrepareBroadcast(s.world.db, p, now, true, wallet).result.value.Send?
    ensures var once := PrepareBroadcast(s.world.db, p, now, true, wallet);
            var send := once.result.value;
            var after := TakeAll(s, BothPrepare(p, now, wallet));
            && after.world.db == PrepareBroadcast(once.db, p, now, true, wallet).db
            && after.world.chain == s.world.chain
            && StageOf(after.world, p) == Sending(send.amount, send.destination)
            && p in after.second && after.second[p] == Sending(send.amount, send.destination)
  {
    PreparedTwice(s.world.db, p, now, wallet);
    TakeTwo(s, First(Prepare(p, now, true, wallet)), Second(Prepare(p, now, true, wallet)));
  }

  lemma SecondTimesOut(s: Shared, p: nat, now: int)
    requires p in s.second && s.second[p].Sending? && !HasLive(s.world.chain, p)
    ensures var asked := Take(Take(s, Second(Event.Send(p, INDETERMINATE, false))), Second(RecordSend(p, None, now)));
            && asked.world == s.world.(db := MarkUnknown(s.world.db, p, now).db)
            && p in asked.second && asked.second[p].Idle?
  {
    var sent := Take(s, Second(Event.Send(p, INDETERMINATE, false)));
    assert sent.world == s.world && sent.second[p] == Sent(INDETERMINATE);
  }

  lemma SecondClears(s: Shared, p: nat, now: int)
    requires p in s.second && s.second[p].Idle? && !HasLive(s.world.chain, p)
    requires p < |s.world.db.payouts| && s.world.db.payouts[p].status == UNKNOWN
    ensures var reset := Take(Take(s, Second(ObserveAbsent(p))), Second(Reset(p, now)));
            && reset.world == s.world.(db := ResetNotFound(s.world.db, p, now).db)
            && p in reset.second && reset.second[p] == Cleared
  {
    var seen := Take(s, Second(ObserveAbsent(p)));
    assert seen.world == s.world && seen.second[p] == SawNothing;
  }

  lemma SecondFails(s: Shared, p: nat, now: int)
    requires p in s.second && s.second[p] == Cleared
    ensures Take(s, Second(Fail(p, now))).world == s.world.(db := FailPayout(s.world.db, p, now).db)
  {
  }

  lemma SecondGaveUp(s: Shared, p: nat, now: int)
    requires p in s.second && s.second[p].Sending? && !HasLive(s.world.chain, p)
    requires var unknown := MarkUnknown(s.world.db, p, now).db; p < |unknown.payouts| && unknown.payouts[p].status == UNKNOWN
    ensures TakeAll(s, SecondGivesUp(p, now)).world
         == s.world.(db := FailPayout(ResetNotFound(MarkUnknown(s.world.db, p, now).db, p, now).db, p, now).db)
  {
    var send, record := Second(Event.Send(p, INDETERMINATE, false)), Second(RecordSend(p, None, now));
    var observe, reset := Second(ObserveAbsent(p)), Second(Reset(p, now));
    TakeFive(s, send, record, observe, reset, Second(Fail(p, now)));
    SecondTimesOut(s, p, now);
    var asked := Take(Take(s, send), record);
    SecondClears(asked, p, now);
    SecondFails(Take(Take(asked, observe), reset), p, now);
  }

  lemma FirstPays(s: Shared, p: nat, amount: int, destination: string)
    requires StageOf(s.world, p) == Sending(amount, destination) && !HasLive(s.world.chain, p)
    ensures var after := TakeAll(s, FirstSends(p, |s.world.chain|)).world;
            after.db == s.world.db && HasLanded(after.chain, p, destination, amount)
  {
    var k := |s.world.chain|;
    TakeTwo(s, First(Event.Send(p, ACCEPTED, true)), First(Land(k)));
    var sent := Take(s, First(Event.Send(p, ACCEPTED, true)));
    assert sent.world.chain == s.world.chain + [Transfer(p, destination, amount, InFlight)];
    var after := Take(sent, First(Land(k))).world;
    assert after.chain[k] == Transfer(p, destination, amount, Landed);
  }

  lemma PreparedIsReachable(db: Db, p: nat, now: int, wallet: Option<Wallet>)
    requires Reachable(db)
    ensures Reachable(PrepareBroadcast(db, p, now, true, wallet).db)
  {
    ReachableApply(db, OpPrepareBroadcast(p, now, true, wallet));
    assert Apply(db, OpPrepareBroadcast(p, now, true, wallet)) == PrepareBroadcast(db, p, now, true, wallet).db;
  }

  lemma PreparedThenFailed(db: Db, p: nat, now: int, wallet: Option<Wallet>)
    requires Reachable(db)
    requires PrepareBroadcast(db, p, now, true, wallet).result.Ok? && PrepareBroadcast(db, p, now, true, wallet).result.value.Send?
    ensures var twice := PrepareBroadcast(PrepareBroadcast(db, p, now, true, wallet).db, p, now, true, wallet).db;
            var unknown := MarkUnknown(twice, p, now).db;
            var failed := FailPayout(ResetNotFound(unknown, p, now).db, p, now).db;
            && p < |unknown.payouts| && unknown.payouts[p].status == UNKNOWN
            && p < |failed.payouts| && failed.payouts[p].status == FAILED
  {
    PreparedTwice(db, p, now, wallet);
    PreparedIsReachable(db, p, now, wallet);
    PreparedIsReachable(PrepareBroadcast(db, p, now, true, wallet).db, p, now, wallet);
    UnknownThenFailed(PrepareBroadcast(PrepareBroadcast(db, p, now, true, wallet).db, p, now, true, wallet).db, p, now);
  }

  /**
   From every world in which a send could be prepared, two workers can end with the payout FAILED and its money landed:
   without the rule of one worker a payout, `Protocol.EveryRunPaysOnce` would not hold.
   */
  lemma TwoWorkersPayAFailedPayout(w: World, p: nat, now: int, wallet: Option<Wallet>)
    requires Reachable(w.db) && StageOf(w, p).Idle? && !HasLive(w.chain, p)
    requires PrepareBroadcast(w.db, p, now, true, wallet).result.Ok? && PrepareBroadcast(w.db, p, now, true, wallet).result.value.Send?
    ensures var send := PrepareBroadcast(w.db, p, now, true, wallet).result.value;
            var turns := BothPrepare(p, now, wallet) + SecondGivesUp(p, now) + FirstSends(p, |w.chain|);
            var end := TakeAll(Shared(w, map[]), turns).world;
            && p < |end.db.payouts| && end.db.payouts[p].status == FAILED
            && HasLanded(end.chain, p, send.destination, send.amount)
  {
    var send := PrepareBroadcast(w.db, p, now, true, wallet).result.value;
    var start := Shared(w, map[]);
    TakeAllConcat(start, BothPrepare(p, now, wallet) + SecondGivesUp(p, now), FirstSends(p, |w.chain|));
    TakeAllConcat(start, BothPrepare(p, now, wallet), SecondGivesUp(p, now));
    PrepareBoth(start, p, now, wallet);
    var prepared := TakeAll(start, BothPrepare(p, now, wallet));
    PreparedThenFailed(w.db, p, now, wallet);
    SecondGaveUp(prepared, p, now);
    FirstPays(TakeAll(prepared, SecondGivesUp(p, now)), p, send.amount, send.destination);
  }

  ghost predicate PaidAndFailed(w: World, p: nat, to: string, amount: int) {
    p < |w.db.payouts| && w.db.payouts[p].status == FAILED && HasLanded(w.chain, p, to, amount)
  }

  /** And such a world there is: the first payout of a merchant can go that way. */
  lemma SomePayoutIsPaidAndFailed()
    ensures exists db, turns :: Reachable(db)
              && PaidAndFailed(TakeAll(Shared(World(db, [], map[]), map[]), turns).world, 0, Sample.WALLET.address, Sample.NANO)
  {
    Sample.SomeSendIsPrepared();
    var wallet := Some(Sample.WALLET);
    var send := Broadcastable.Send(Sample.NANO, Sample.WALLET.address, Sample.WALLET.network);
    var db :| Reachable(db) && PrepareBroadcast(db, 0, 0, true, wallet).result == Ok(send);
    var w := World(db, [], map[]);
    TwoWorkersPayAFailedPayout(w, 0, 0, wallet);
    var turns := BothPrepare(0, 0, wallet) + SecondGivesUp(0, 0) + FirstSends(0, |w.chain|);
    assert PaidAndFailed(TakeAll(Shared(w, map[]), turns).world, 0, Sample.WALLET.address, Sample.NANO);
  }
}
