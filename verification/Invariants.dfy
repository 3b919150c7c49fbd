/** What every step of the payout protocol keeps. */
module Invariants {
  import opened Common
  import Bank
  import opened Tables
  import opened Queues
  import opened Delivery
  import opened Protocol

  /* ---- the database ---- */

  ghost predicate HasKey(db: Db, pid: nat, key: Key) {
    pid in db.payouts && db.payouts[pid].key == Some(key)
  }

  /** A payout row belongs to an executing settlement and carries its creditor, amount and
      currency; it has a key from its first claim on, and a bank reference exactly when paid. */
  ghost predicate RowOk(db: Db, pid: nat)
    requires pid in db.payouts
  {
    var row := db.payouts[pid];
    && row.settlementId in db.settlements
    && db.settlements[row.settlementId].status == Executing
    && row.merchantId == db.settlements[row.settlementId].merchantId
    && row.amountMinor == db.settlements[row.settlementId].amountMinor
    && row.currency == db.settlements[row.settlementId].currency
    && row.state in {Queued, Sending, Paid}
    && (row.state == Queued <==> row.key == None)
    && (row.state == Paid <==> row.bankRef.Some?)
  }

  ghost predicate DbInv(db: Db) {
    && (forall p :: p in db.payouts ==> RowOk(db, p))
    && (forall p, q :: p in db.payouts && q in db.payouts && p != q ==>
          db.payouts[p].settlementId != db.payouts[q].settlementId)
    && (forall p, q, k :: HasKey(db, p, k) && HasKey(db, q, k) ==> p == q)
    && (forall sid :: sid in db.settlements ==>
          db.settlements[sid].amountMinor >= 0 && db.settlements[sid].status in {Pending, Executing})
  }

  /** How a row may change: forward through queued, sending, paid; the key and the bank
      reference are written once; what is owed never changes. */
  ghost predicate RowGrows(row: Payout, row': Payout) {
    && row'.settlementId == row.settlementId && row'.merchantId == row.merchantId
    && row'.amountMinor == row.amountMinor && row'.currency == row.currency
    && (row.key.Some? ==> row'.key == row.key)
    && (row.bankRef.Some? ==> row'.bankRef == row.bankRef)
    && Forward(row.state, row'.state)
  }

  predicate Forward(from: PayoutState, to: PayoutState) {
    from == to || (from == Queued && to in {Sending, Paid}) || (from == Sending && to == Paid)
  }

  ghost predicate DbGrows(db: Db, db': Db) {
    forall p :: p in db.payouts ==> p in db'.payouts && RowGrows(db.payouts[p], db'.payouts[p])
  }

  /* ---- the bank ---- */

  ghost predicate PaysFor(e: Bank.Entry, pid: nat, row: Payout) {
    && e.reference == Reference(pid) && e.merchantId == row.merchantId
    && e.amountMinor == row.amountMinor && e.currency == row.currency
  }

  ghost predicate KeyOk(db: Db, books: Bank.Books, key: Key)
    requires key in books.byKey
  {
    && books.byKey[key] in books.ledger
    && exists p :: HasKey(db, p, key) && PaysFor(books.byKey[key], p, db.payouts[p])
  }

  ghost predicate EntryKeyed(books: Bank.Books, e: Bank.Entry) {
    exists k: Key :: k in books.byKey && books.byKey[k] == e
  }

  ghost predicate BooksInv(db: Db, books: Bank.Books) {
    && (forall k: string :: k in books.byKey ==> k != "" && KeyOk(db, books, k))
    && (forall e :: e in books.ledger ==> EntryKeyed(books, e))
    && Bank.DistinctReferences(books.ledger)
  }

  /** A paid row records the reference of the entry the bank keeps under its key. */
  ghost predicate PaidAgrees(db: Db, books: Bank.Books) {
    forall p :: p in db.payouts && db.payouts[p].state == Paid ==> Recorded(db.payouts[p], books)
  }

  ghost predicate Recorded(row: Payout, books: Bank.Books) {
    && row.key.Some? && row.key.value in books.byKey
    && row.bankRef == Some(books.byKey[row.key.value].bankRef)
  }

  ghost predicate BooksGrow(books: Bank.Books, books': Bank.Books) {
    && books.ledger <= books'.ledger
    && (forall k :: k in books.byKey ==> k in books'.byKey && books'.byKey[k] == books.byKey[k])
  }

  /* ---- the wire ---- */

  ghost predicate RequestOk(db: Db, q: PayRequest) {
    exists p :: HasKey(db, p, q.key) && q.body == BodyFor(p, db.payouts[p])
  }

  function BodyFor(pid: nat, row: Payout): Bank.PayoutIn {
    Bank.PayoutIn(row.merchantId, row.amountMinor, row.currency, Reference(pid))
  }

  ghost predicate ReplyOk(books: Bank.Books, r: (PayRequest, string)) {
    r.0.key in books.byKey && books.byKey[r.0.key].bankRef == r.1
  }

  ghost predicate WireInv(s: State) {
    && (forall q :: q in s.sent ==> RequestOk(s.db, q))
    && (forall r :: r in s.replies ==> ReplyOk(s.books, r))
  }

  /* ---- jobs ---- */

  /** A job names an existing payout and carries exactly what it owes. */
  ghost predicate Carries(db: Db, job: Job) {
    && job.payoutId in db.payouts
    && job.merchantId == db.payouts[job.payoutId].merchantId
    && job.amountMinor == db.payouts[job.payoutId].amountMinor
    && job.currency == db.payouts[job.payoutId].currency
  }

  ghost predicate TextOk(s: State, raw: Raw, maxAttempt: int) {
    raw.JobText? ==> raw.job.payoutId in s.pushed && Carries(s.db, raw.job) && raw.job.attempt <= maxAttempt
  }

  /** The highest attempt a text that waits for a delivery can carry: the first delivery always
      takes place. */
  function LastAttempt(maxAttempts: int): int {
    if maxAttempts >= 1 then maxAttempts - 1 else 0
  }

  /** Every text Redis holds is in order; a dead letter may have used up its last attempt. */
  ghost predicate TextsOk(s: State, redis: Redis) {
    && (forall raw :: raw in redis.jobs ==> TextOk(s, raw, LastAttempt(s.maxAttempts)))
    && (forall w, raw :: raw in Held(redis, w) ==> TextOk(s, raw, LastAttempt(s.maxAttempts)))
    && (forall raw :: raw in redis.retry ==> TextOk(s, raw, LastAttempt(s.maxAttempts)))
    && (forall raw :: raw in redis.dead ==> TextOk(s, raw, LastAttempt(s.maxAttempts) + 1))
  }

  /** A payout whose push is still to come, or never came, has not been touched. */
  ghost predicate UnsentInv(s: State) {
    && (forall p :: p in s.unsent ==>
          p in s.db.payouts && p !in s.pushed && s.unsent[p].payoutId == p
          && Carries(s.db, s.unsent[p]) && s.unsent[p].attempt == 0)
    && (forall p :: p in s.db.payouts && p !in s.pushed ==> s.db.payouts[p].state == Queued)
  }

  ghost predicate Named(r: Redis, pid: nat) {
    exists raw :: NamedBy(r, pid, raw)
  }

  ghost predicate NamedBy(r: Redis, pid: nat, raw: Raw) {
    raw.JobText? && raw.job.payoutId == pid && Holds(r, raw)
  }

  /** No owed payout is lost: once pushed, it is paid or a job still names it. */
  ghost predicate NotLost(s: State) {
    forall p :: p in s.pushed ==> p in s.db.payouts && (s.db.payouts[p].state == Paid || Named(s.redis, p))
  }

  /* ---- running deliveries ---- */

  ghost predicate TaskOk(s: State, t: Task) {
    && TextOk(s, t.raw, LastAttempt(s.maxAttempts))
    && (t.raw.Malformed? ==> t.pc == Fetched)
    && (t.raw.JobText? ==> PcOk(s, t.raw.job.payoutId, t.pc))
  }

  ghost predicate PcOk(s: State, pid: nat, pc: Pc) {
    match pc
    case Fetched => true
    case Holding(key) => HasKey(s.db, pid, key)
    case Calling(q) => HasKey(s.db, pid, q.key) && q in s.sent
    case Replied(ref) =>
      pid in s.db.payouts && s.db.payouts[pid].key.Some? &&
      s.db.payouts[pid].key.value in s.books.byKey && s.books.byKey[s.db.payouts[pid].key.value].bankRef == ref
    case Acking => pid in s.db.payouts && s.db.payouts[pid].state == Paid
    case Failing(f) => !f.PermanentFailure?
  }

  ghost predicate TasksInv(s: State) {
    forall t :: t in s.tasks ==> TaskOk(s, s.tasks[t])
  }

  ghost predicate Inv(s: State) {
    && DbInv(s.db)
    && BooksInv(s.db, s.books) && PaidAgrees(s.db, s.books)
    && WireInv(s)
    && TextsOk(s, s.redis) && UnsentInv(s) && NotLost(s)
    && TasksInv(s)
  }

  lemma InitInv(maxAttempts: int)
    ensures Inv(Init(maxAttempts))
  {
  }

  /* ---- what survives growth of the stores ---- */

  /** From s to s' the stores grow and the histories extend. */
  ghost predicate Grows(s: State, s': State) {
    && s'.maxAttempts == s.maxAttempts
    && DbGrows(s.db, s'.db)
    && BooksGrow(s.books, s'.books)
    && s.pushed <= s'.pushed
    && s.sent <= s'.sent
  }

  lemma GrowthIsTransitive(a: State, b: State, c: State)
    requires Grows(a, b) && Grows(b, c)
    ensures Grows(a, c)
  {
    assert a.books.ledger <= c.books.ledger;
  }

  lemma GrowthKeepsBooks(db: Db, db': Db, books: Bank.Books)
    requires DbGrows(db, db') && BooksInv(db, books)
    ensures BooksInv(db', books)
  {
    forall k: string | k in books.byKey
      ensures k != "" && KeyOk(db', books, k)
    {
      assert KeyOk(db, books, k);
      var p :| HasKey(db, p, k) && PaysFor(books.byKey[k], p, db.payouts[p]);
      assert HasKey(db', p, k) && PaysFor(books.byKey[k], p, db'.payouts[p]);
    }
  }

  lemma GrowthKeepsRequest(db: Db, db': Db, q: PayRequest)
    requires DbGrows(db, db') && RequestOk(db, q)
    ensures RequestOk(db', q)
  {
    var p :| HasKey(db, p, q.key) && q.body == BodyFor(p, db.payouts[p]);
    assert HasKey(db', p, q.key);
  }

  lemma GrowthKeepsText(s: State, s': State, raw: Raw, m: int)
    requires Grows(s, s') && TextOk(s, raw, m)
    ensures TextOk(s', raw, m)
  {
  }

  lemma GrowthKeepsTask(s: State, s': State, t: Task)
    requires Grows(s, s') && TaskOk(s, t)
    ensures TaskOk(s', t)
  {
  }

  lemma GrowthKeepsWire(s: State, s': State)
    requires Grows(s, s') && WireInv(s)
    requires forall q :: q in s'.sent ==> q in s.sent || RequestOk(s'.db, q)
    requires forall r :: r in s'.replies ==> r in s.replies || ReplyOk(s'.books, r)
    ensures WireInv(s')
  {
    forall q | q in s'.sent
      ensures RequestOk(s'.db, q)
    {
      if q in s.sent { GrowthKeepsRequest(s.db, s'.db, q); }
    }
    forall r | r in s'.replies
      ensures ReplyOk(s'.books, r)
    {
      if r in s.replies { assert ReplyOk(s.books, r); }
    }
  }

  lemma GrowthKeepsQueue(s: State, s': State)
    requires Grows(s, s') && TextsOk(s, s.redis) && s'.redis == s.redis
    ensures TextsOk(s', s'.redis)
  {
    forall raw, m | TextOk(s, raw, m)
      ensures TextOk(s', raw, m)
    {
      GrowthKeepsText(s, s', raw, m);
    }
  }

  lemma GrowthKeepsNotLost(s: State, s': State)
    requires Grows(s, s') && NotLost(s) && s'.redis == s.redis && s'.pushed == s.pushed
    ensures NotLost(s')
  {
  }

  lemma GrowthKeepsTasks(s: State, s': State)
    requires Grows(s, s') && TasksInv(s)
    requires forall t :: t in s'.tasks ==> (t in s.tasks && s'.tasks[t] == s.tasks[t]) || TaskOk(s', s'.tasks[t])
    ensures TasksInv(s')
  {
    forall t | t in s'.tasks
      ensures TaskOk(s', s'.tasks[t])
    {
      if t in s.tasks && s'.tasks[t] == s.tasks[t] { GrowthKeepsTask(s, s', s.tasks[t]); }
    }
  }
}
