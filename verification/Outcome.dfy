/** One delivery of a job, run by its thread without interruption: what it does to the three stores,
    step by step, and the law of its outcome, which says the same from what its calls do
    (app/settle/worker.py, handle and process; app/settle/bank.py). */
module Outcome {
  import opened Common
  import Bank
  import opened Tables
  import opened Queues
  import opened Delivery

  /* ---- one delivery, run by its thread without interruption ---- */

  /** What becomes of the bank call: lost on the way there, lost on the way back, refused with a
      status before the ledger is touched, or answered. */
  datatype Wire = NeverArrives | ReplyLost | Refused(status: int) | Answered

  /** The outcomes of everything a delivery calls. */
  datatype Calls = Calls(proposed: Key, claim: Fault, wire: Wire, bankRef: string, ts: real, mark: Fault,
                         ack: Fault, fail: Fault, now: real, jitter: real)

  function BankCall(books: Bank.Books, q: PayRequest, c: Calls): (Bank.Books, Bank.PayResult) {
    var (after, entry, _) := Bank.Post(books, q.body, Some(q.key), c.bankRef, c.ts);
    match c.wire
    case NeverArrives => (books, Bank.Pay(Bank.TransportError))
    case ReplyLost => (after, Bank.Pay(Bank.TransportError))
    case Refused(status) => (books, Bank.Pay(Bank.Response(status, None)))
    case Answered => (after, Bank.Pay(Bank.Response(200, Some(entry.bankRef))))
  }

  /** handle: the stores afterwards, and how it ended (Acking or Failing). */
  function Handled(db: Db, books: Bank.Books, job: Job, c: Calls): (Db, Bank.Books, Pc) {
    var (claimed, r) := ClaimTx(db, job.payoutId, c.proposed);
    var db1 := Committed(c.claim, db, claimed);
    var pc1 := AfterClaim(r, c.claim);
    if !pc1.Holding? then (db1, books, pc1)
    else
      var (books1, result) := BankCall(books, RequestFor(job, pc1.key), c);
      if !result.Ok? then (db1, books1, AfterPay(result))
      else (Committed(c.mark, db1, MarkPaidTx(db1, job.payoutId, result.bankRef)), books1, AfterMark(c.mark))
  }

  function Due(config: Config, job: Job, c: Calls): real {
    c.now + Backoff(config, job.attempt + 1, c.jitter)
  }

  /** The end of process for a job whose handle ended at `pc`. */
  function Finished(r: Redis, w: WorkerId, job: Job, pc: Pc, config: Config, c: Calls): Redis {
    var r1 := if pc == Acking then Committed(c.ack, r, Release(r, w, JobText(job))) else r;
    if pc == Acking && c.ack == Works then r1
    else
      var f := if pc.Failing? then pc.failure else StoreFailure(if c.ack == Works then "" else c.ack.error);
      Committed(c.fail, r1, RetryOrDead(r1, w, job, f, config.maxAttempts, Due(config, job, c)))
  }

  /* ---- how a delivery ends, from what its calls do ---- */

  /** Acknowledged, tried again, or given up. */
  datatype End = Done | Retried | GivenUp

  /** The key a claim of the payout would hold. */
  function KeyFor(db: Db, pid: nat, proposed: Key): Key {
    if pid in db.payouts && db.payouts[pid].key.Some? then db.payouts[pid].key.value else proposed
  }

  /** The payout is there to be sent, and no other has its key. */
  ghost predicate Claimable(db: Db, pid: nat, proposed: Key) {
    && pid in db.payouts && db.payouts[pid].state in {Queued, Sending}
    && forall q :: q in db.payouts && q != pid ==> db.payouts[q].key != Some(KeyFor(db, pid, proposed))
  }

  /** Only a 4xx answer of the bank other than 429, and a payout that is in no state to be sent, are
      given up at once; every other failure, of the database, the network, the bank or Redis, is tried
      again. */
  ghost function EndOf(db: Db, job: Job, c: Calls): End {
    var pid := job.payoutId;
    if c.claim != Works then Retried
    else if pid !in db.payouts || db.payouts[pid].state !in {Queued, Sending, Paid} then GivenUp
    else if GetsToAck(db, job, c) then if c.ack == Works then Done else Retried
    else if Claimable(db, pid, c.proposed) && c.wire.Refused? then
      if 400 <= c.wire.status < 500 && c.wire.status != 429 then GivenUp else Retried
    else Retried
  }

  /** The payout is paid already, or now is: claimed, accepted by the bank, and marked. */
  ghost predicate GetsToAck(db: Db, job: Job, c: Calls) {
    && c.claim == Works && job.payoutId in db.payouts
    && (db.payouts[job.payoutId].state == Paid
        || (Claimable(db, job.payoutId, c.proposed) && c.wire == Answered && c.mark == Works))
  }

  /** What the database holds after the delivery: nothing new unless the claim took effect; then the
      row is being sent under its key; and paid, with the bank's reference, if the bank answered and
      the mark took effect. */
  ghost predicate DbAfter(db: Db, books: Bank.Books, job: Job, c: Calls, db': Db) {
    var pid, key := job.payoutId, KeyFor(db, job.payoutId, c.proposed);
    if c.claim.FailsBefore? || !Claimable(db, pid, c.proposed) then db' == db
    else
      var sending := db.payouts[pid].(state := Sending, key := Some(key));
      var ref := if key in books.byKey then books.byKey[key].bankRef else c.bankRef;
      db' == Db(db.settlements, db.payouts[pid :=
               if c.claim == Works && c.wire == Answered && !c.mark.FailsBefore?
               then sending.(state := Paid, bankRef := Some(ref)) else sending])
  }

  /** What the bank holds after it: one entry more, for exactly what the job says, if the request
      arrived and its key was new. */
  ghost predicate BooksAfter(db: Db, books: Bank.Books, job: Job, c: Calls, books': Bank.Books) {
    var pid, key := job.payoutId, KeyFor(db, job.payoutId, c.proposed);
    var entry := Bank.Entry(c.bankRef, job.merchantId, job.amountMinor, job.currency, Reference(pid), c.ts);
    if c.claim == Works && Claimable(db, pid, c.proposed) && (c.wire == ReplyLost || c.wire == Answered)
       && key !in books.byKey
    then books' == Bank.Books(books.ledger + [entry], books.byKey[key := entry])
    else books' == books
  }

  /** The job's next copy. */
  function NextCopy(job: Job, error: string): Raw {
    JobText(job.(attempt := job.attempt + 1, lastError := Some(error)))
  }

  /** The seconds from now until the next attempt: base * 2^attempt, capped, times the jitter. */
  function Wait(config: Config, attempt: nat, jitter: real): real {
    var d := config.retryBase * (Pow2(attempt) as real);
    (if d < config.retryMax then d else config.retryMax) * jitter
  }

  /** What Redis holds after it, when the Redis transaction at its end works. */
  ghost predicate RedisAfter(r: Redis, w: WorkerId, job: Job, config: Config, c: Calls, end: End, twice: bool,
                             r': Redis)
  {
    ListsAfter(r, w, JobText(job), twice, r') && PlaceAfter(r, job, config, c, end, r')
  }

  /** One copy of the text is gone from the worker's list; a second one too, if there is one, when only
      the reply to the ack was lost. */
  ghost predicate ListsAfter(r: Redis, w: WorkerId, text: Raw, twice: bool, r': Redis) {
    && r'.jobs == r.jobs && r'.leases == r.leases
    && (forall v :: v != w ==> Held(r', v) == Held(r, v))
    && multiset(Held(r', w)) == multiset(Held(r, w)) - (if twice then multiset{text, text} else multiset{text})
  }

  /** The next copy is in RETRY with its due time, or in DEAD. */
  ghost predicate PlaceAfter(r: Redis, job: Job, config: Config, c: Calls, end: End, r': Redis) {
    if end == Done then r'.retry == r.retry && r'.dead == r.dead
    else if end == Retried && job.attempt + 1 < config.maxAttempts then
      r'.dead == r.dead && exists error, due :: IsRetried(r, job, config, c, error, due, r')
    else
      r'.retry == r.retry && exists error :: IsDead(r, job, error, r')
  }

  ghost predicate IsDead(r: Redis, job: Job, error: string, r': Redis) {
    |error| <= 300 && r'.dead == [NextCopy(job, error)] + r.dead
  }

  ghost predicate IsRetried(r: Redis, job: Job, config: Config, c: Calls, error: string, due: real, r': Redis) {
    && |error| <= 300 && r'.retry == r.retry[NextCopy(job, error) := due]
    && (job.attempt >= 0 ==> due == c.now + Wait(config, job.attempt, c.jitter))
  }

  /** The store law of handle. */
  lemma HandledStores(db: Db, books: Bank.Books, job: Job, c: Calls)
    ensures var (db', books', pc) := Handled(db, books, job, c);
            DbAfter(db, books, job, c, db') && BooksAfter(db, books, job, c, books')
  {
    ClaimLaw(db, job.payoutId, c.proposed);
    hide ClaimTx, KeyInUse, Reference;
    if !Claimable(db, job.payoutId, c.proposed) {
      NotClaimable(db, job.payoutId, c.proposed);
    }
  }

  /** How handle ends. */
  lemma HandledEnds(db: Db, books: Bank.Books, job: Job, c: Calls)
    ensures var pc := Handled(db, books, job, c).2;
            && (pc == Acking <==> GetsToAck(db, job, c)) && (pc != Acking ==> pc.Failing?)
            && EndsAs(pc, c, EndOf(db, job, c))
  {
    ClaimLaw(db, job.payoutId, c.proposed);
    hide ClaimTx, KeyInUse, Reference, MarkPaidTx, Bank.Post;
    if !Claimable(db, job.payoutId, c.proposed) {
      NotClaimable(db, job.payoutId, c.proposed);
    }
  }

  lemma RetryTx(r: Redis, w: WorkerId, job: Job, f: Failure, config: Config, c: Calls)
    requires Retryable(f) && job.attempt + 1 < config.maxAttempts
    ensures var due := Due(config, job, c);
            var r' := RetryOrDead(r, w, job, f, config.maxAttempts, due);
            && ListsAfter(r, w, JobText(job), false, r') && r'.dead == r.dead
            && IsRetried(r, job, config, c, Truncated(f.text), due, r')
  {
    var due := Due(config, job, c);
    var added := r.(retry := r.retry[JobText(Delivery.Again(job, f)) := due]);
    DueLaw(config, job, c);
    hide Due, Truncated, Wait, Retryable, Release, Pow2;
    ReleaseLaw(added, w, JobText(job));
    assert forall v :: Held(added, v) == Held(r, v);
  }

  lemma DeadTx(r: Redis, w: WorkerId, job: Job, f: Failure, config: Config, c: Calls)
    requires !Retryable(f) || job.attempt + 1 >= config.maxAttempts
    ensures var r' := RetryOrDead(r, w, job, f, config.maxAttempts, Due(config, job, c));
            && ListsAfter(r, w, JobText(job), false, r') && r'.retry == r.retry
            && IsDead(r, job, Truncated(f.text), r')
  {
    var added := r.(dead := [JobText(Delivery.Again(job, f))] + r.dead);
    DueLaw(config, job, c);
    hide Due, Truncated, Retryable, Release;
    ReleaseLaw(added, w, JobText(job));
    assert forall v :: Held(added, v) == Held(r, v);
  }

  /** The retry or dead-letter transaction. */
  lemma AgainLaw(r: Redis, w: WorkerId, job: Job, f: Failure, config: Config, c: Calls, end: End)
    requires end != Done && (end == Retried <==> Retryable(f))
    ensures var r' := RetryOrDead(r, w, job, f, config.maxAttempts, Due(config, job, c));
            ListsAfter(r, w, JobText(job), false, r') && PlaceAfter(r, job, config, c, end, r')
  {
    hide RetryOrDead, Due, Truncated, Retryable, ListsAfter, IsRetried, IsDead;
    if Retryable(f) && job.attempt + 1 < config.maxAttempts {
      RetryTx(r, w, job, f, config, c);
    } else {
      DeadTx(r, w, job, f, config, c);
    }
  }

  lemma DueLaw(config: Config, job: Job, c: Calls)
    ensures forall f: Failure :: |Truncated(f.text)| <= 300
    ensures job.attempt >= 0 ==> Due(config, job, c) == c.now + Wait(config, job.attempt, c.jitter)
  {
  }

  lemma ReleaseLaw(r: Redis, w: WorkerId, raw: Raw)
    ensures var r' := Release(r, w, raw);
            ListsAfter(r, w, raw, false, r') && r'.retry == r.retry && r'.dead == r.dead
  {
  }

  lemma ListsTwice(r: Redis, r1: Redis, r2: Redis, w: WorkerId, text: Raw)
    requires ListsAfter(r, w, text, false, r1) && ListsAfter(r1, w, text, false, r2)
    ensures ListsAfter(r, w, text, true, r2)
  {
    hide Held;
    assert multiset(Held(r, w)) - multiset{text} - multiset{text} == multiset(Held(r, w)) - multiset{text, text};
  }

  lemma PlaceBehind(r: Redis, r1: Redis, job: Job, config: Config, c: Calls, end: End, r': Redis)
    requires r1.retry == r.retry && r1.dead == r.dead && PlaceAfter(r1, job, config, c, end, r')
    ensures PlaceAfter(r, job, config, c, end, r')
  {
    hide Wait, NextCopy;
    if end == Retried && job.attempt + 1 < config.maxAttempts {
      var error, due :| IsRetried(r1, job, config, c, error, due, r');
      assert IsRetried(r, job, config, c, error, due, r');
    } else if end != Done {
      var error :| IsDead(r1, job, error, r');
      assert IsDead(r, job, error, r');
    }
  }

  /** How handle ended agrees with the end of the delivery. */
  ghost predicate EndsAs(pc: Pc, c: Calls, end: End) {
    match end
    case Done => pc == Acking && c.ack == Works
    case Retried => (pc == Acking && c.ack != Works) || (pc.Failing? && Retryable(pc.failure))
    case GivenUp => pc.Failing? && !Retryable(pc.failure)
  }

  /** The outcome law of a delivery whose last Redis transaction works. */
  lemma FinishedLaw(r: Redis, w: WorkerId, job: Job, pc: Pc, config: Config, c: Calls, end: End)
    requires c.fail == Works && EndsAs(pc, c, end)
    ensures RedisAfter(r, w, job, config, c, end, pc == Acking && c.ack.FailsAfter?, Finished(r, w, job, pc, config, c))
  {
    hide Due, Wait, RetryOrDead, Release, ListsAfter, PlaceAfter, Retryable;
    var text := JobText(job);
    ReleaseLaw(r, w, text);
    if end == Done {
      DonePlace(r, Release(r, w, text), job, config, c);
    } else {
      var r1 := if pc == Acking then Committed(c.ack, r, Release(r, w, text)) else r;
      var f := if pc.Failing? then pc.failure else StoreFailure(c.ack.error);
      StoreFailuresRetry();
      AgainLaw(r1, w, job, f, config, c, end);
      var r' := RetryOrDead(r1, w, job, f, config.maxAttempts, Due(config, job, c));
      PlaceBehind(r, r1, job, config, c, end, r');
      if pc == Acking && c.ack.FailsAfter? { ListsTwice(r, r1, r', w, text); }
    }
  }

  lemma StoreFailuresRetry()
    ensures forall text :: Retryable(StoreFailure(text))
  {
  }

  lemma DonePlace(r: Redis, r': Redis, job: Job, config: Config, c: Calls)
    requires r'.retry == r.retry && r'.dead == r.dead
    ensures PlaceAfter(r, job, config, c, Done, r')
  {
  }

  lemma ProcessLaw(db: Db, books: Bank.Books, r: Redis, w: WorkerId, job: Job, config: Config, c: Calls)
    ensures var (db', books', pc) := Handled(db, books, job, c);
            && DbAfter(db, books, job, c, db') && BooksAfter(db, books, job, c, books')
            && (c.fail == Works ==>
                  RedisAfter(r, w, job, config, c, EndOf(db, job, c), GetsToAck(db, job, c) && c.ack.FailsAfter?,
                             Finished(r, w, job, pc, config, c)))
  {
    HandledStores(db, books, job, c);
    HandledEnds(db, books, job, c);
    hide Handled, DbAfter, BooksAfter, EndOf, EndsAs, GetsToAck, RedisAfter, Finished;
    if c.fail == Works { FinishedLaw(r, w, job, Handled(db, books, job, c).2, config, c, EndOf(db, job, c)); }
  }

  lemma NotClaimable(db: Db, pid: nat, proposed: Key)
    requires !Claimable(db, pid, proposed)
    ensures pid in db.payouts && db.payouts[pid].state in {Queued, Sending} ==>
              exists q :: q in db.payouts && q != pid && db.payouts[q].key == Some(KeyFor(db, pid, proposed))
  {
  }
}
