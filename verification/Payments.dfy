/** What a delivery achieves when it is left alone, in every reachable state, and how long a job that
    keeps failing waits in all. */
module Payments {
  import opened Common
  import Bank
  import opened Tables
  import opened Queues
  import opened Delivery
  import opened Protocol
  import opened Invariants
  import opened Preservation
  import opened Safety
  import opened Outcome
  import opened Service
  import opened Conformance

  /* ---- a delivery pays ---- */

  lemma {:induction false} RunsJoin(s: State, first: seq<Action>, second: seq<Action>)
    requires IsRun(s, first) && IsRun(After(s, first), second)
    ensures IsRun(s, first + second) && After(s, first + second) == After(After(s, first), second)
    decreases |first|
  {
    hide Step, Enabled;
    if first == [] {
      assert first + second == second;
    } else {
      assert (first + second)[1..] == first[1..] + second;
      RunsJoin(Step(s, first[0]), first[1..], second);
    }
  }

  lemma ReachableOn(s: State, maxAttempts: int, actions: seq<Action>)
    requires Reachable(s, maxAttempts) && IsRun(s, actions)
    ensures Reachable(After(s, actions), maxAttempts)
  {
    var before :| IsRun(Init(maxAttempts), before) && After(Init(maxAttempts), before) == s;
    hide IsRun, After;
    RunsJoin(Init(maxAttempts), before, actions);
  }

  /** All calls of the delivery work and are answered, and the key it proposes is nobody's. */
  ghost predicate Undisturbed(db: Db, c: Calls) {
    && c.claim == Works && c.wire == Answered && c.mark == Works && c.ack == Works
    && forall q :: q in db.payouts ==> db.payouts[q].key != Some(c.proposed)
  }

  /** The delivery's payout is to be sent, and no other has its key. */
  lemma UnpaidIsClaimable(s: State, tid: nat, c: Calls)
    requires DbInv(s.db) && TasksInv(s) && At(s, tid) && Undisturbed(s.db, c)
    ensures var pid := s.tasks[tid].raw.job.payoutId;
            && pid in s.db.payouts
            && (s.db.payouts[pid].state != Paid ==> Claimable(s.db, pid, c.proposed))
  {
    assert TaskOk(s, s.tasks[tid]);
    var pid := s.tasks[tid].raw.job.payoutId;
    assert RowOk(s.db, pid);
    if s.db.payouts[pid].key.Some? { KeysNotShared(s.db, pid); }
    hide DbInv, TasksInv;
  }

  /** A delivery of an unpaid payout, about to begin, that nothing will disturb. */
  ghost predicate AboutToPay(s: State, maxAttempts: int, tid: nat, c: Calls) {
    && Reachable(s, maxAttempts) && At(s, tid) && s.tasks[tid].pc == Fetched
    && Undisturbed(s.db, c) && c.fail == Works
    && var pid := s.tasks[tid].raw.job.payoutId;
       (pid in s.db.payouts ==> s.db.payouts[pid].state != Paid)
  }

  /** Paid, with one ledger entry, one copy of the text off the worker's list, and nothing put aside. */
  ghost predicate IsPaid(db: Db, books: Bank.Books, before: Redis, after: Redis, w: WorkerId, raw: Raw)
    requires raw.JobText?
  {
    var pid := raw.job.payoutId;
    && pid in db.payouts && db.payouts[pid].state == Paid
    && Bank.Count(books.ledger, Reference(pid)) == 1
    && multiset(Held(after, w)) == multiset(Held(before, w)) - multiset{raw}
    && after.retry == before.retry && after.dead == before.dead && after.jobs == before.jobs
  }

  lemma DeliveryOutcome(s: State, maxAttempts: int, tid: nat, config: Config, c: Calls) returns (actions: seq<Action>)
    requires AboutToPay(s, maxAttempts, tid, c) && maxAttempts == config.maxAttempts
    ensures IsRun(s, actions)
    ensures var t, s' := s.tasks[tid], After(s, actions);
            var (db, books, pc) := Handled(s.db, s.books, t.raw.job, c);
            && s'.db == db && s'.books == books && s'.tasks == s.tasks - {tid}
            && s'.redis == Finished(s.redis, t.worker, t.raw.job, pc, config, c)
            && IsPaid(s'.db, s'.books, s.redis, s'.redis, t.worker, t.raw)
  {
    var t := s.tasks[tid];
    hide Reachable, Inv, DbInv, BooksInv, WireInv, TextsOk, UnsentInv, NotLost, TasksInv, PaidAgrees;
    hide Undisturbed, Handled, Finished, IsRun, After, Held, Claimable, Bank.Count, Reference, EndOf, GetsToAck;
    hide DbAfter, BooksAfter, RedisAfter;
    ReachableInv(s, maxAttempts);
    Parts(s);
    UnpaidIsClaimable(s, tid, c);
    actions := ProcessIsARun(s, tid, config, c);
    ReachableOn(s, maxAttempts, actions);
    var s' := After(s, actions);
    ProcessLaw(s.db, s.books, s.redis, t.worker, t.raw.job, config, c);
    PaidInTheEnd(s.db, s.books, s.redis, t.worker, t.raw.job, config, c, s'.db, s'.redis);
    PaidMeansOneEntry(s', maxAttempts, t.raw.job.payoutId);
  }

  /** In every reachable state, a delivery of an unpaid payout whose calls all work and are answered
      leaves the payout paid, with exactly one ledger entry for it, one copy of the text off the
      worker's list, and RETRY and DEAD as they were. */
  lemma DeliveryPays(s: State, maxAttempts: int, tid: nat, config: Config, c: Calls) returns (actions: seq<Action>)
    requires AboutToPay(s, maxAttempts, tid, c) && maxAttempts == config.maxAttempts
    ensures IsRun(s, actions)
    ensures var t, s' := s.tasks[tid], After(s, actions);
            IsPaid(s'.db, s'.books, s.redis, s'.redis, t.worker, t.raw) && s'.tasks == s.tasks - {tid}
  {
    hide AboutToPay, Handled, Finished, IsRun, After;
    AtHand(s, maxAttempts, tid, c);
    actions := DeliveryOutcome(s, maxAttempts, tid, config, c);
  }

  lemma AtHand(s: State, maxAttempts: int, tid: nat, c: Calls)
    requires AboutToPay(s, maxAttempts, tid, c)
    ensures At(s, tid)
  {
  }

  lemma PaidInTheEnd(db: Db, books: Bank.Books, r: Redis, w: WorkerId, job: Job, config: Config, c: Calls,
                     db': Db, r': Redis)
    requires Undisturbed(db, c) && Claimable(db, job.payoutId, c.proposed)
    requires DbAfter(db, books, job, c, db')
    requires RedisAfter(r, w, job, config, c, EndOf(db, job, c), GetsToAck(db, job, c) && c.ack.FailsAfter?, r')
    ensures job.payoutId in db'.payouts && db'.payouts[job.payoutId].state == Paid
    ensures multiset(Held(r', w)) == multiset(Held(r, w)) - multiset{JobText(job)}
    ensures r'.retry == r.retry && r'.dead == r.dead && r'.jobs == r.jobs
  {
    hide Held;
  }

  /** The same of the code: process, called with the text a thread took, in stores as they are in any
      reachable state. */
  method ProcessPays(w: Worker, c: Calls, ghost s: State, ghost tid: nat, raw: Raw)
    requires AboutToPay(s, w.config.maxAttempts, tid, c) && s.tasks[tid].worker == w.id && s.tasks[tid].raw == raw
    requires w.pg.Value() == s.db && w.bank.Value() == s.books && w.redis.Value() == s.redis
    modifies w.pg, w.bank, w.redis
    ensures IsPaid(w.pg.Value(), w.bank.Value(), old(w.redis.Value()), w.redis.Value(), w.id, raw)
  {
    ghost var actions := DeliveryOutcome(s, w.config.maxAttempts, tid, w.config, c);
    hide Handled, Finished, IsPaid, DbAfter, BooksAfter, RedisAfter;
    w.Process(raw, c);
  }

  /* ---- how long a failing job waits ---- */

  /** A delivery of `job` at time c.now put `next` into RETRY, due after `wait` seconds. */
  ghost predicate PutBack(config: Config, job: Job, next: Job, wait: real, r: Redis, c: Calls, error: string,
                          r': Redis)
  {
    && job.attempt + 1 < config.maxAttempts && 0.8 <= c.jitter <= 1.2
    && IsRetried(r, job, config, c, error, c.now + wait, r')
    && JobText(next) == NextCopy(job, error)
  }

  ghost predicate WasPutBack(config: Config, job: Job, next: Job, wait: real) {
    exists r, c, error, r' :: PutBack(config, job, next, wait, r, c, error, r')
  }

  lemma WaitIsDelay(config: Config, attempt: nat, jitter: real)
    ensures Wait(config, attempt, jitter) == Backoff(config, attempt + 1, jitter)
  {
  }

  lemma PutBackIsRescheduled(config: Config, job: Job, next: Job, wait: real)
    requires WasPutBack(config, job, next, wait) && job.attempt >= 0
    ensures Rescheduled(config, job, next, wait) && next.attempt == job.attempt + 1
  {
    hide IsRetried, Wait, Backoff;
    var r, c, error, r' :| PutBack(config, job, next, wait, r, c, error, r');
    DueIs(r, job, config, c, error, wait, r');
    WaitIsDelay(config, job.attempt, c.jitter);
    var f := StoreFailure(error);
    assert GoesToRetry(job, f, config.maxAttempts);
    assert next == Delivery.Again(job, f);
  }

  lemma DueIs(r: Redis, job: Job, config: Config, c: Calls, error: string, wait: real, r': Redis)
    requires IsRetried(r, job, config, c, error, c.now + wait, r') && job.attempt >= 0
    ensures wait == Wait(config, job.attempt, c.jitter) && |error| <= 300
  {
  }

  /** However a job fails, and however late its deliveries run, the waiting times written into RETRY
      over its whole life stay within the horizon. */
  lemma {:induction false} WaitsWithinHorizon(config: Config, jobs: seq<Job>, waits: seq<real>)
    requires config.retryBase >= 0.0 && config.retryMax >= 0.0
    requires |jobs| == |waits| + 1 && jobs[0].attempt == 0
    requires forall i :: 0 <= i < |waits| ==> WasPutBack(config, jobs[i], jobs[i + 1], waits[i])
    ensures waits == [] || |waits| < config.maxAttempts
    ensures SumReals(waits) <= Horizon(config, config.maxAttempts - 1)
  {
    AllRescheduled(config, jobs, waits, |waits|);
    hide WasPutBack, Rescheduled, Horizon, SumReals;
    assert RetryChain(config, jobs, waits);
    RetryHorizon(config, jobs, waits);
  }

  lemma {:induction false} AllRescheduled(config: Config, jobs: seq<Job>, waits: seq<real>, n: nat)
    requires |jobs| == |waits| + 1 && jobs[0].attempt == 0 && n <= |waits|
    requires forall i :: 0 <= i < |waits| ==> WasPutBack(config, jobs[i], jobs[i + 1], waits[i])
    ensures jobs[n].attempt == n
    ensures forall i :: 0 <= i < n ==> Rescheduled(config, jobs[i], jobs[i + 1], waits[i])
  {
    hide WasPutBack, Rescheduled;
    if n > 0 {
      AllRescheduled(config, jobs, waits, n - 1);
      PutBackIsRescheduled(config, jobs[n - 1], jobs[n], waits[n - 1]);
    }
  }
}
