/** The code of the API and of a worker as it runs on its own between the stores
    (app/settle/api.py, app/settle/worker.py), proved against the atomic steps of the protocol. */
module Service {
  import opened Common
  import Bank
  import opened Tables
  import opened Queues
  import opened Delivery
  import Protocol
  import opened Outcome
  import opened Recovery

  /* ---- the API ---- */

  class Api {
    const pg: Postgres
    const redis: RedisServer

    constructor (pg: Postgres, redis: RedisServer)
      ensures this.pg == pg && this.redis == redis
    {
      this.pg, this.redis := pg, redis;
    }

    /** 409 without any effect unless the settlement is pending; otherwise the payout is committed
        first and its job pushed afterwards. `push` is what becomes of the LPUSH. */
    method ExecuteSettlement(sid: nat, pid: nat, requestId: Option<string>, at: real, push: Fault)
      returns (accepted: bool)
      requires pid !in pg.payouts
      modifies pg, redis
      ensures sid !in old(pg.settlements) || old(pg.settlements)[sid].status != Pending ==>
                !accepted && pg.Value() == old(pg.Value()) && redis.Value() == old(redis.Value())
      ensures sid in old(pg.settlements) && old(pg.settlements)[sid].status == Pending ==>
                var s := old(pg.settlements)[sid];
                && pg.payouts == old(pg.payouts)[pid := Payout(sid, s.merchantId, s.amountMinor, s.currency, Queued,
                                                              None, None)]
                && var job := Job(pid, s.merchantId, s.amountMinor, s.currency, requestId, at, 0, None);
                   redis.jobs == if push.FailsBefore? then old(redis.jobs) else [JobText(job)] + old(redis.jobs)
      ensures var (db, row) := ExecuteTx(old(pg.Value()), sid, pid);
              && pg.Value() == db
              && (row == None ==> !accepted && redis.Value() == old(redis.Value()))
              && (row.Some? ==>
                    && accepted == push.Works?
                    && redis.Value() == Committed(push, old(redis.Value()),
                         PushJobs(old(redis.Value()), JobText(Protocol.FirstJob(pid, row.value, requestId, at)))))
    {
      var row := pg.ExecuteSettlement(sid, pid);
      if row == None {
        return false;
      }
      var job := Job(pid, row.value.merchantId, row.value.amountMinor, row.value.currency, requestId, at, 0, None);
      if !push.FailsBefore? {
        redis.LPushJobs(JobText(job));
      }
      return push.Works?;
    }
  }

  /* ---- the worker ---- */

  class Worker {
    const id: WorkerId
    const config: Config
    const pg: Postgres
    const bank: Bank.BankMock
    const redis: RedisServer
    var inflight: int
    var stop: bool

    constructor (id: WorkerId, config: Config, pg: Postgres, bank: Bank.BankMock, redis: RedisServer)
      ensures this.id == id && this.config == config
      ensures this.pg == pg && this.bank == bank && this.redis == redis
      ensures inflight == 0 && !stop
    {
      this.id, this.config, this.pg, this.bank, this.redis := id, config, pg, bank, redis;
      inflight, stop := 0, false;
    }

    method Handle(job: Job, c: Calls) returns (pc: Pc)
      modifies pg, bank
      ensures pc == Acking || pc.Failing?
      ensures (pg.Value(), bank.Value(), pc) == Handled(old(pg.Value()), old(bank.Value()), job, c)
      ensures DbAfter(old(pg.Value()), old(bank.Value()), job, c, pg.Value())
      ensures BooksAfter(old(pg.Value()), old(bank.Value()), job, c, bank.Value())
    {
      HandledStores(pg.Value(), bank.Value(), job, c);
      hide DbAfter, BooksAfter;
      if c.claim.FailsBefore? {
        return Failing(StoreFailure(c.claim.error));
      }
      var claim := pg.Claim(job.payoutId, c.proposed);
      if c.claim.FailsAfter? {
        return Failing(StoreFailure(c.claim.error));
      }
      if !claim.Claimed? {
        if claim == NotClaimed(Some(Paid)) {
          return Acking;
        }
        return if claim.KeyTaken? then Failing(StoreFailure("duplicate idempotency key"))
               else Failing(PermanentFailure("cannot send"));
      }
      var body := Bank.PayoutIn(job.merchantId, job.amountMinor, job.currency, Reference(job.payoutId));
      var ref := "";
      match c.wire {
        case NeverArrives =>
          return Failing(BankFailure(true, "bank error"));
        case Refused(status) =>
          return AfterPay(Bank.Pay(Bank.Response(status, None)));
        case ReplyLost =>
          var _, _ := bank.CreatePayout(body, Some(claim.key), c.bankRef, c.ts, false);
          return Failing(BankFailure(true, "bank error"));
        case Answered =>
          var entry, _ := bank.CreatePayout(body, Some(claim.key), c.bankRef, c.ts, false);
          ref := entry.value.bankRef;
      }
      if !c.mark.FailsBefore? {
        pg.MarkPaid(job.payoutId, ref);
      }
      return if c.mark == Works then Acking else Failing(StoreFailure(c.mark.error));
    }

    method RetryOrDeadLetter(raw: Raw, job: Job, failure: Failure, c: Calls)
      requires raw == JobText(job)
      modifies redis
      ensures redis.Value() == Committed(c.fail, old(redis.Value()),
                RetryOrDead(old(redis.Value()), id, job, failure, config.maxAttempts, Due(config, job, c)))
    {
      hide RemoveFirst, Release, WithHeld, Held, Backoff, Truncated, Retryable;
      if c.fail.FailsBefore? {
        return;
      }
      var attempt := job.attempt + 1;
      var again := JobText(job.(attempt := attempt, lastError := Some(Truncated(failure.text))));
      if Retryable(failure) && attempt < config.maxAttempts {
        redis.retry := redis.retry[again := c.now + Backoff(config, attempt, c.jitter)];
      } else {
        redis.dead := [again] + redis.dead;
      }
      redis.LRem(id, raw);
    }

    method Process(raw: Raw, c: Calls)
      modifies pg, bank, redis
      ensures raw.Malformed? ==>
                && pg.Value() == old(pg.Value()) && bank.Value() == old(bank.Value())
                && redis.Value() == Committed(c.fail, old(redis.Value()), DeadLetter(old(redis.Value()), id, raw, raw))
      ensures raw.JobText? ==>
                var (db, books, pc) := Handled(old(pg.Value()), old(bank.Value()), raw.job, c);
                && pg.Value() == db && bank.Value() == books
                && redis.Value() == Finished(old(redis.Value()), id, raw.job, pc, config, c)
      ensures raw.JobText? ==>
                && DbAfter(old(pg.Value()), old(bank.Value()), raw.job, c, pg.Value())
                && BooksAfter(old(pg.Value()), old(bank.Value()), raw.job, c, bank.Value())
                && (c.fail == Works ==>
                      RedisAfter(old(redis.Value()), id, raw.job, config, c, EndOf(old(pg.Value()), raw.job, c),
                                 GetsToAck(old(pg.Value()), raw.job, c) && c.ack.FailsAfter?, redis.Value()))
    {
      if raw.JobText? { ProcessLaw(pg.Value(), bank.Value(), redis.Value(), id, raw.job, config, c); }
      hide DbAfter, BooksAfter, RedisAfter, EndOf, GetsToAck;
      if raw.Malformed? {
        if !c.fail.FailsBefore? {
          redis.dead := [raw] + redis.dead;
          redis.LRem(id, raw);
        }
        return;
      }
      var pc := Handle(raw.job, c);
      if pc == Acking {
        if !c.ack.FailsBefore? {
          redis.LRem(id, raw);
        }
        if c.ack == Works {
          return;
        }
        pc := Failing(StoreFailure(c.ack.error));
      }
      RetryOrDeadLetter(raw, raw.job, pc.failure, c);
    }

    /** The done callback of the pool. */
    method Done()
      modifies this`inflight
      ensures inflight == old(inflight) - 1
    {
      inflight := inflight - 1;
    }

    method Heartbeat()
      modifies redis
      ensures redis.Value() == old(redis.Value()).(leases := old(redis.leases) + {id})
    {
      redis.leases := redis.leases + {id};
    }

    method PromoteDueRetries(now: real) returns (moved: nat)
      modifies redis
      ensures exists due :: IsDueBatch(old(redis.retry), now, PROMOTE_LIMIT, due) && moved == |due| &&
                            redis.Value() == Promote(old(redis.Value()), due)
    {
      moved := redis.PromoteDue(now);
    }

    /** `keys` is what SCAN yields, possibly with repetitions. */
    method RecoverDeadWorkers(keys: seq<WorkerId>) returns (moved: nat)
      requires NoEmptyLists(redis.Value())
      modifies redis
      ensures NoEmptyLists(redis.Value())
      ensures redis.Value() == Recovered(old(redis.Value()), id, keys)
      ensures moved == |redis.jobs| - |old(redis.jobs)|
      ensures exists owners :: Rescued(old(redis.Value()), id, keys, owners, moved, redis.Value())
    {

      moved := 0;
      ghost var before := redis.Value();
      RecoveredNothing(before, id);
      hide Recovered, Drained, WithHeld, Held, NoEmptyLists, Rescued, DeadOwners;
      for i := 0 to |keys|
        invariant redis.Value() == Recovered(before, id, keys[..i])
        invariant moved == |redis.jobs| - |before.jobs|
        invariant NoEmptyLists(redis.Value())
      {
        assert keys[..i + 1][..i] == keys[..i];
        var owner := keys[i];
        assert redis.leases == before.leases by { RecoveredLeases(before, id, keys[..i]); }
        if owner != id && owner !in redis.leases {
          var n := DrainList(owner);
          moved := moved + n;
        }
        RecoveredOneMore(before, id, keys[..i], owner);
        assert keys[..i + 1] == keys[..i] + [owner];
      }
      assert keys[..|keys|] == keys;
      RecoveryLaw(before, id, keys);
      assert Rescued(before, id, keys, DeadOwners(before.leases, id, keys), moved, redis.Value());
    }

    /** LMOVE until it answers nothing. */
    method DrainList(owner: WorkerId) returns (moved: nat)
      requires NoEmptyLists(redis.Value())
      modifies redis
      ensures moved == |Held(old(redis.Value()), owner)| && |redis.jobs| == |old(redis.jobs)| + moved
      ensures NoEmptyLists(redis.Value())
      ensures redis.Value() == Drained(old(redis.Value()), owner)
    {
      ghost var before := redis.Value();
      ghost var list := Held(before, owner);
      var n := 0;
      var more := true;
      assert list[..|list|] == list;
      WithHeldSame(before, owner);
      while more
        invariant 0 <= n <= |list|
        invariant redis.Value() ==
                  WithHeld(before, owner, list[..|list| - n]).(jobs := before.jobs + Reverse(list)[..n])
        invariant !more ==> n == |list|
        decreases |list| - n, more
      {
        ghost var held := list[..|list| - n];
        more := redis.LMoveBack(owner);
        if more {
          assert held[..|held| - 1] == list[..|list| - (n + 1)];
          assert Reverse(list)[..n + 1] == Reverse(list)[..n] + [held[|held| - 1]];
          n := n + 1;
        }
      }
      assert Reverse(list)[..n] == Reverse(list);
      return n;
    }

    /** One iteration of the main loop per tick: how many pool tasks have finished since the last
        one, whether Redis is down, whether a stop signal has come. Answers the texts handed to
        the pool, in order, and the delay before the next attempt after an outage. */
    method Run(ticks: seq<Tick>) returns (accepted: seq<Raw>, delay: real)
      requires 0 <= inflight <= config.concurrency && NoEmptyLists(redis.Value())
      modifies this, redis
      ensures Loop(inflight, stop, delay, |accepted|) ==
              AfterTicks(Loop(old(inflight), old(stop), 0.5, 0), ticks, config.concurrency, |old(redis.Value()).jobs|)
      ensures 0 <= inflight <= config.concurrency && 0.5 <= delay <= 30.0
      ensures old(stop) ==> accepted == []
      ensures |accepted| <= |old(redis.Value()).jobs|
      ensures accepted == TakenTexts(old(redis.Value()), |accepted|)
      ensures redis.Value() == Taken(old(redis.Value()), id, |accepted|)
    {
      accepted, delay := [], 0.5;
      ghost var before := redis.Value();
      ghost var start := Loop(inflight, stop, delay, 0);
      TakenNothing(before, id);
      hide Taken, TakenTexts, Fetch, NoEmptyLists, AfterTicks, AfterTick, Held;
      var i := 0;
      assert ticks[0..] == ticks;
      while i < |ticks| && !stop
        invariant 0 <= i <= |ticks|
        invariant 0 <= inflight <= config.concurrency && 0.5 <= delay <= 30.0
        invariant old(stop) ==> accepted == [] && stop
        invariant |accepted| <= |before.jobs| && accepted == TakenTexts(before, |accepted|)
        invariant redis.Value() == Taken(before, id, |accepted|)
        invariant AfterTicks(Loop(inflight, stop, delay, |accepted|), ticks[i..], config.concurrency, |before.jobs|) ==
                  AfterTicks(start, ticks, config.concurrency, |before.jobs|)
      {
        NextTick(Loop(inflight, stop, delay, |accepted|), ticks, i, config.concurrency, |before.jobs|);
        TakenOneMore(before, id, |accepted|);
        JobsLeft(before, id, |accepted|);
        var raw;
        raw, delay := Iterate(ticks[i], delay, |accepted|, |before.jobs|);
        if raw.Some? {
          accepted := accepted + [raw.value];
        }
        i := i + 1;
      }
      LastTick(Loop(inflight, stop, delay, |accepted|), ticks[i..], config.concurrency, |before.jobs|);
    }

    /** The body of the main loop. */
    method Iterate(tick: Tick, delay: real, ghost taken: nat, ghost jobs: nat) returns (raw: Option<Raw>, delay': real)
      requires 0 <= inflight <= config.concurrency && |redis.Value().jobs| == jobs - taken && 0.5 <= delay <= 30.0
      modifies this, redis
      ensures 0 <= inflight <= config.concurrency && 0.5 <= delay' <= 30.0
      ensures Loop(inflight, stop, delay', if raw.Some? then taken + 1 else taken) ==
              AfterTick(Loop(old(inflight), old(stop), delay, taken), tick, config.concurrency, jobs)
      ensures raw == None ==> redis.Value() == old(redis.Value())
      ensures raw.Some? ==>
                var r := old(redis.Value());
                r.jobs != [] && raw.value == r.jobs[|r.jobs| - 1] && redis.Value() == Fetch(r, id)
    {
      raw, delay' := None, delay;
      inflight := if tick.finished <= inflight then inflight - tick.finished else 0;
      stop := tick.stopRequested;
      if inflight >= config.concurrency {
        return;
      }
      if tick.redisDown {
        delay' := if delay * 2.0 < 30.0 then delay * 2.0 else 30.0;
        return;
      }
      raw := redis.BLMove(id);
      delay' := 0.5;
      if raw.Some? {
        inflight := inflight + 1;
      }
    }

    /** Waits for the pool, poll by poll, until it is idle or the polls (the deadline) run out;
        then gives up the lease. Answers what is left in the processing list. */
    method Drain(polls: seq<nat>) returns (left: nat)
      requires 0 <= inflight
      modifies this, redis
      ensures redis.Value() == old(redis.Value()).(leases := old(redis.leases) - {id})
      ensures left == |Held(redis.Value(), id)|
      ensures inflight == 0 <==> old(inflight) <= SumNats(polls)
      ensures inflight > 0 ==> old(inflight) - inflight == SumNats(polls)
      ensures 0 <= inflight <= old(inflight)
    {
      var i := 0;
      assert polls[..0] == [];
      while inflight != 0 && i < |polls|
        invariant 0 <= i <= |polls|
        invariant redis.Value() == old(redis.Value())
        invariant inflight == if old(inflight) <= SumNats(polls[..i]) then 0 else old(inflight) - SumNats(polls[..i])
      {
        assert polls[..i + 1][..i] == polls[..i];
        inflight := if polls[i] <= inflight then inflight - polls[i] else 0;
        i := i + 1;
      }
      SumGrows(polls, i);
      assert i == |polls| ==> polls[..i] == polls;
      left := |Held(redis.Value(), id)|;
      redis.leases := redis.leases - {id};
    }
  }

  datatype Tick = Tick(finished: nat, redisDown: bool, stopRequested: bool)

  function SumNats(s: seq<nat>): nat {
    if s == [] then 0 else SumNats(s[..|s| - 1]) + s[|s| - 1]
  }

  lemma {:induction false} SumGrows(s: seq<nat>, i: nat)
    requires i <= |s|
    ensures SumNats(s[..i]) <= SumNats(s)
  {
    if i < |s| {
      var init := s[..|s| - 1];
      SumGrows(init, i);
      assert init[..i] == s[..i];
    } else {
      assert s[..i] == s;
    }
  }

  /* ---- the account of the main loop ---- */

  /** The counter, the stop flag, the delay after an outage, and how many texts were taken. */
  datatype Loop = Loop(inflight: int, stop: bool, delay: real, taken: nat)

  /** One iteration: with room it tries to fetch, and takes one text if Redis answers and JOBS,
      which held `jobs` texts at first, is not used up. */
  function AfterTick(l: Loop, tick: Tick, limit: int, jobs: nat): Loop {
    var busy := if tick.finished <= l.inflight then l.inflight - tick.finished else 0;
    if busy >= limit then Loop(busy, tick.stopRequested, l.delay, l.taken)
    else if tick.redisDown then
      Loop(busy, tick.stopRequested, if l.delay * 2.0 < 30.0 then l.delay * 2.0 else 30.0, l.taken)
    else if l.taken < jobs then Loop(busy + 1, tick.stopRequested, 0.5, l.taken + 1)
    else Loop(busy, tick.stopRequested, 0.5, l.taken)
  }

  function AfterTicks(l: Loop, ticks: seq<Tick>, limit: int, jobs: nat): Loop
    decreases |ticks|
  {
    if ticks == [] || l.stop then l else AfterTicks(AfterTick(l, ticks[0], limit, jobs), ticks[1..], limit, jobs)
  }

  lemma JobsLeft(r: Redis, w: WorkerId, k: nat)
    requires k <= |r.jobs|
    ensures |Taken(r, w, k).jobs| == |r.jobs| - k
  {
  }

  lemma NextTick(l: Loop, ticks: seq<Tick>, i: nat, limit: int, jobs: nat)
    requires i < |ticks| && !l.stop
    ensures AfterTicks(l, ticks[i..], limit, jobs) ==
            AfterTicks(AfterTick(l, ticks[i], limit, jobs), ticks[i + 1..], limit, jobs)
  {
    hide AfterTick;
    assert ticks[i..][1..] == ticks[i + 1..];
  }

  lemma LastTick(l: Loop, ticks: seq<Tick>, limit: int, jobs: nat)
    requires ticks == [] || l.stop
    ensures AfterTicks(l, ticks, limit, jobs) == l
  {
  }

  /** With Redis up, no stop signal, and room at every tick, the loop takes a text per tick until
      JOBS is empty. */
  lemma {:induction false} TakesEveryText(l: Loop, ticks: seq<Tick>, limit: int, jobs: nat)
    requires !l.stop && 0 <= l.inflight <= limit && limit >= 1 && l.taken <= jobs
    requires forall t :: t in ticks ==> !t.redisDown && !t.stopRequested && t.finished >= 1
    ensures var end := AfterTicks(l, ticks, limit, jobs);
            !end.stop && end.taken == if l.taken + |ticks| <= jobs then l.taken + |ticks| else jobs
    decreases |ticks|
  {
    if ticks != [] {
      assert ticks[0] in ticks;
      TakesEveryText(AfterTick(l, ticks[0], limit, jobs), ticks[1..], limit, jobs);
    }
  }

  /** A stop signal ends the fetching: what comes after it makes no difference. */
  lemma {:induction false} StopEndsFetching(l: Loop, ticks: seq<Tick>, i: nat, limit: int, jobs: nat)
    requires i < |ticks| && ticks[i].stopRequested
    ensures AfterTicks(l, ticks, limit, jobs) == AfterTicks(l, ticks[..i + 1], limit, jobs)
    decreases i
  {
    if !l.stop {
      var next := AfterTick(l, ticks[0], limit, jobs);
      assert ticks[..i + 1][0] == ticks[0] && ticks[..i + 1][1..] == ticks[1..][..i];
      if i > 0 {
        assert ticks[1..][i - 1] == ticks[i];
        StopEndsFetching(next, ticks[1..], i - 1, limit, jobs);
      } else {
        assert next.stop;
      }
    }
  }

  /** No accepted text goes uncounted: the counter rises by the texts taken and falls by those that
      finish. */
  lemma {:induction false} CounterAdds(l: Loop, ticks: seq<Tick>, limit: int, jobs: nat)
    requires 0 <= l.inflight && l.taken <= jobs
    ensures var end := AfterTicks(l, ticks, limit, jobs);
            && l.taken <= end.taken <= jobs && 0 <= end.inflight
            && l.inflight + (end.taken - l.taken) - Finishes(l, ticks, limit, jobs) == end.inflight
    decreases |ticks|
  {
    if ticks != [] && !l.stop {
      CounterAdds(AfterTick(l, ticks[0], limit, jobs), ticks[1..], limit, jobs);
    }
  }

  /** The texts that finish during the ticks; no more can than are counted. */
  function Finishes(l: Loop, ticks: seq<Tick>, limit: int, jobs: nat): int
    decreases |ticks|
  {
    if ticks == [] || l.stop then 0
    else
      (if ticks[0].finished <= l.inflight then ticks[0].finished else l.inflight)
      + Finishes(AfterTick(l, ticks[0], limit, jobs), ticks[1..], limit, jobs)
  }

  /** Without room nothing is taken; with room, an answer of Redis puts the delay back to half a
      second. */
  lemma RoomDecides(l: Loop, tick: Tick, limit: int, jobs: nat)
    requires 0 <= l.inflight
    ensures var next := AfterTick(l, tick, limit, jobs);
            && (l.inflight - tick.finished >= limit ==> next.taken == l.taken && next.delay == l.delay)
            && (l.inflight - tick.finished < limit && limit >= 1 && !tick.redisDown ==> next.delay == 0.5)
  {
  }

  /** During an outage nothing is taken and the delay doubles, up to 30 seconds; no delay leaves
      0.5 to 30 seconds. */
  lemma {:induction false} OutageDoublesDelay(l: Loop, ticks: seq<Tick>, limit: int, jobs: nat)
    requires 0.5 <= l.delay <= 30.0 && 0 <= l.inflight < limit && !l.stop
    requires forall t :: t in ticks ==> t.redisDown && !t.stopRequested
    ensures var end, doubled := AfterTicks(l, ticks, limit, jobs), l.delay * (Pow2(|ticks|) as real);
            end.taken == l.taken && end.delay == if doubled < 30.0 then doubled else 30.0
    decreases |ticks|
  {
    if ticks != [] {
      assert ticks[0] in ticks;
      var next := AfterTick(l, ticks[0], limit, jobs);
      OutageDoublesDelay(next, ticks[1..], limit, jobs);
      var p := Pow2(|ticks| - 1) as real;
      assert Pow2(|ticks|) as real == 2.0 * p && p >= 1.0;
      if l.delay * 2.0 < 30.0 {
        assert next.delay * p == l.delay * (2.0 * p);
      } else {
        Doubled(l.delay, p);
      }
    }
  }

  lemma Doubled(d: real, p: real)
    requires d * 2.0 >= 30.0 && p >= 1.0
    ensures d * (2.0 * p) >= 30.0 && 30.0 * p >= 30.0
  {
    assert d * (2.0 * p) == (d * 2.0) * p;
    assert (d * 2.0 - 30.0) * p >= 0.0;
  }

  /** Redis after worker w has fetched k texts: the k rightmost of JOBS, in their order there, in
      front of what it already held. */
  function Taken(r: Redis, w: WorkerId, k: nat): Redis
    requires k <= |r.jobs|
  {
    var n := |r.jobs| - k;
    WithHeld(r, w, r.jobs[n..] + Held(r, w)).(jobs := r.jobs[..n])
  }

  /** Those texts in the order they were fetched: from the right. */
  function TakenTexts(r: Redis, k: nat): seq<Raw>
    requires k <= |r.jobs|
  {
    Reverse(r.jobs[|r.jobs| - k..])
  }

  lemma TakenNothing(r: Redis, w: WorkerId)
    requires NoEmptyLists(r)
    ensures Taken(r, w, 0) == r && TakenTexts(r, 0) == []
  {
    WithHeldSame(r, w);
    assert r.jobs[|r.jobs|..] == [] && r.jobs[..|r.jobs|] == r.jobs;
    assert r.jobs[|r.jobs|..] + Held(r, w) == Held(r, w);
  }

  /** Redis after texts were pushed one by one. */
  function Pushed(r: Redis, raws: seq<Raw>): Redis {
    if raws == [] then r else PushJobs(Pushed(r, raws[..|raws| - 1]), raws[|raws| - 1])
  }

  lemma {:induction false} PushedIs(r: Redis, raws: seq<Raw>)
    ensures Pushed(r, raws) == r.(jobs := Reverse(raws) + r.jobs)
  {
    if raws == [] {
      assert Reverse(raws) + r.jobs == r.jobs;
    } else {
      var init, last := raws[..|raws| - 1], raws[|raws| - 1];
      PushedIs(r, init);
      assert Reverse(raws) == [last] + Reverse(init);
      assert [last] + (Reverse(init) + r.jobs) == Reverse(raws) + r.jobs;
    }
  }

  /** Jobs are fetched in the order they were pushed, behind those that were waiting. */
  lemma FirstInFirstOut(r: Redis, raws: seq<Raw>)
    ensures var all := Pushed(r, raws);
            |all.jobs| == |r.jobs| + |raws| && TakenTexts(all, |all.jobs|) == TakenTexts(r, |r.jobs|) + raws
  {
    PushedIs(r, raws);
    var jobs := Pushed(r, raws).jobs;
    assert jobs[0..] == jobs && r.jobs[0..] == r.jobs;
    assert Reverse(jobs) == Reverse(r.jobs) + raws;
  }

  /** Promoted retries go first, the one due last before the others; then the jobs that were waiting. */
  lemma PromotedGoFirst(r: Redis, due: seq<Raw>)
    ensures var all := Promote(r, due);
            |all.jobs| == |r.jobs| + |due| && TakenTexts(all, |all.jobs|) == Reverse(due) + TakenTexts(r, |r.jobs|)
  {
    var jobs := Promote(r, due).jobs;
    assert jobs[0..] == jobs && r.jobs[0..] == r.jobs;
    assert Reverse(jobs) == Reverse(due) + Reverse(r.jobs);
  }

  /** The next fetch takes the next text from the right, unless JOBS is empty. */
  lemma TakenOneMore(r: Redis, w: WorkerId, k: nat)
    requires k <= |r.jobs|
    ensures Taken(r, w, k).jobs == [] <==> k == |r.jobs|
    ensures k < |r.jobs| ==>
              var t := Taken(r, w, k);
              && Fetch(t, w) == Taken(r, w, k + 1)
              && TakenTexts(r, k + 1) == TakenTexts(r, k) + [t.jobs[|t.jobs| - 1]]
  {
    hide Fetch, WithHeld, Held, Reverse;
    if k < |r.jobs| {
      FetchFromRight(r, w, r.jobs[..|r.jobs| - k], r.jobs[|r.jobs| - k..]);
      assert r.jobs[..|r.jobs| - k][..|r.jobs| - k - 1] == r.jobs[..|r.jobs| - (k + 1)];
      assert [r.jobs[|r.jobs| - k - 1]] + r.jobs[|r.jobs| - k..] == r.jobs[|r.jobs| - (k + 1)..];
    }
  }

  lemma FetchFromRight(r: Redis, w: WorkerId, rest: seq<Raw>, taken: seq<Raw>)
    requires rest != []
    ensures var n := |rest| - 1;
            && Fetch(WithHeld(r, w, taken + Held(r, w)).(jobs := rest), w)
               == WithHeld(r, w, ([rest[n]] + taken) + Held(r, w)).(jobs := rest[..n])
            && Reverse([rest[n]] + taken) == Reverse(taken) + [rest[n]]
  {
    var n := |rest| - 1;
    assert ([rest[n]] + taken) + Held(r, w) == [rest[n]] + (taken + Held(r, w));
    assert ([rest[n]] + taken)[1..] == taken;
  }
}
