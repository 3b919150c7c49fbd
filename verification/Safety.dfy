/** What holds in every reachable state of the payout protocol. */
module Safety {
  import opened Common
  import Bank
  import opened Tables
  import opened Queues
  import opened Delivery
  import opened Protocol
  import opened Invariants
  import opened Preservation

  /** No merchant is paid twice: the ledger has at most one entry per reference, and each entry
      pays exactly what its payout owes. */
  lemma AtMostOncePerReference(s: State, maxAttempts: int)
    requires Reachable(s, maxAttempts)
    ensures forall r :: Bank.Count(s.books.ledger, r) <= 1
    ensures forall e :: e in s.books.ledger ==> exists p :: p in s.db.payouts && PaysFor(e, p, s.db.payouts[p])
  {
    ReachableInv(s, maxAttempts);
    Bank.CountsAtMostOneIffDistinct(s.books.ledger);
    forall e | e in s.books.ledger
      ensures exists p :: p in s.db.payouts && PaysFor(e, p, s.db.payouts[p])
    {
      assert EntryKeyed(s.books, e);
      var k: Key :| k in s.books.byKey && s.books.byKey[k] == e;
      assert KeyOk(s.db, s.books, k);
    }
  }

  /** The bank's duplicate report is empty whenever anyone asks. */
  method ReconcileFindsNothing(bank: Bank.BankMock, ghost s: State) returns (dups: map<string, nat>)
    requires Reachable(s, s.maxAttempts) && bank.Value() == s.books
    ensures dups == map[]
  {
    dups := bank.Duplicates();
    ReachableInv(s, s.maxAttempts);
  }

  /** The ledger holds an entry for a payout exactly when the bank has accepted its key. */
  lemma InLedgerIffAccepted(s: State, p: nat)
    requires Inv(s) && p in s.db.payouts
    ensures Bank.Count(s.books.ledger, Reference(p)) > 0 <==>
            s.db.payouts[p].key.Some? && s.db.payouts[p].key.value in s.books.byKey
    ensures s.db.payouts[p].key.Some? && s.db.payouts[p].key.value in s.books.byKey ==>
              var e := s.books.byKey[s.db.payouts[p].key.value];
              e in s.books.ledger && PaysFor(e, p, s.db.payouts[p])
  {
    var row := s.db.payouts[p];
    if row.key.Some? && row.key.value in s.books.byKey {
      assert KeyOk(s.db, s.books, row.key.value);
      assert HasKey(s.db, p, row.key.value);
      var i :| 0 <= i < |s.books.ledger| && s.books.ledger[i] == s.books.byKey[row.key.value];
      assert s.books.ledger[i].reference == Reference(p);
    }
    if i :| 0 <= i < |s.books.ledger| && s.books.ledger[i].reference == Reference(p) {
      assert EntryKeyed(s.books, s.books.ledger[i]);
      var k: Key :| k in s.books.byKey && s.books.byKey[k] == s.books.ledger[i];
      assert KeyOk(s.db, s.books, k);
      var q :| HasKey(s.db, q, k) && PaysFor(s.books.byKey[k], q, s.db.payouts[q]);
      ReferenceInjective(p, q);
    }
  }

  lemma CountAppend(ledger: seq<Bank.Entry>, e: Bank.Entry, r: string)
    ensures Bank.Count(ledger + [e], r) == Bank.Count(ledger, r) + (if e.reference == r then 1 else 0)
  {
    assert (ledger + [e])[..|ledger|] == ledger;
  }

  lemma CountsAfterPost(ledger: seq<Bank.Entry>, e: Bank.Entry, p: nat, o: nat)
    requires e.reference == Reference(p)
    ensures Bank.Count(ledger + [e], Reference(o)) == Bank.Count(ledger, Reference(o)) + (if o == p then 1 else 0)
  {
    CountAppend(ledger, e, Reference(o));
    if Reference(o) == Reference(p) { ReferenceInjective(o, p); }
  }

  /** Database and bank agree: a paid payout has exactly one ledger entry, it pays what is owed,
      and its bank reference is the one on the row, however many deliveries ran. */
  lemma PaidMeansOneEntry(s: State, maxAttempts: int, p: nat)
    requires Reachable(s, maxAttempts)
    requires p in s.db.payouts && s.db.payouts[p].state == Paid
    ensures Bank.Count(s.books.ledger, Reference(p)) == 1
    ensures forall e :: e in s.books.ledger && e.reference == Reference(p) ==>
                          PaysFor(e, p, s.db.payouts[p]) && s.db.payouts[p].bankRef == Some(e.bankRef)
  {
    ReachableInv(s, maxAttempts);
    AtMostOncePerReference(s, maxAttempts);
    InLedgerIffAccepted(s, p);
    assert Recorded(s.db.payouts[p], s.books);
    var mine := s.books.byKey[s.db.payouts[p].key.value];
    assert Bank.DistinctReferences(s.books.ledger);
    hide Inv, Bank.Count;
    forall e | e in s.books.ledger && e.reference == Reference(p)
      ensures e == mine
    {
      var i :| 0 <= i < |s.books.ledger| && s.books.ledger[i] == e;
      var j :| 0 <= j < |s.books.ledger| && s.books.ledger[j] == mine;
      assert s.books.ledger[i].reference == s.books.ledger[j].reference;
    }
  }

  /** A job is acknowledged only when its payout is paid. */
  lemma AckOnlyWhenPaid(s: State, maxAttempts: int, tid: nat, fault: Fault)
    requires Reachable(s, maxAttempts) && Enabled(s, Ack(tid, fault))
    ensures var p := s.tasks[tid].raw.job.payoutId; p in s.db.payouts && s.db.payouts[p].state == Paid
  {
    ReachableInv(s, maxAttempts);
    assert TaskOk(s, s.tasks[tid]);
  }

  lemma TextHeld(s: State, raw: Raw)
    requires TextsOk(s, s.redis) && Holds(s.redis, raw)
    ensures TextOk(s, raw, LastAttempt(s.maxAttempts) + 1)
    ensures raw !in s.redis.dead ==> TextOk(s, raw, LastAttempt(s.maxAttempts))
  {
    if raw !in s.redis.dead { assert TextOk(s, raw, LastAttempt(s.maxAttempts)); }
  }

  /** No owed payout is lost. For an unpaid payout: no job anywhere names it exactly when its
      first push never happened, and then nobody has touched it either. */
  lemma NoOwedPayoutIsLost(s: State, maxAttempts: int, p: nat)
    requires Reachable(s, maxAttempts)
    requires p in s.db.payouts && s.db.payouts[p].state != Paid
    ensures !Named(s.redis, p) <==> p !in s.pushed
    ensures p !in s.pushed ==> s.db.payouts[p].state == Queued && Bank.Count(s.books.ledger, Reference(p)) == 0
  {
    ReachableInv(s, maxAttempts);
    if Named(s.redis, p) {
      var raw :| NamedBy(s.redis, p, raw);
      TextHeld(s, raw);
    }
    if p !in s.pushed {
      assert RowOk(s.db, p);
      InLedgerIffAccepted(s, p);
    }
  }

  /** Where the work has come to rest, nothing owed is forgotten: when JOBS and RETRY are empty, every
      payout ever pushed is paid, or a dead letter or a text in some worker's list names it. */
  lemma AtRest(s: State, maxAttempts: int, p: nat) returns (holder: Option<Raw>)
    requires Reachable(s, maxAttempts) && s.redis.jobs == [] && s.redis.retry == map[] && p in s.pushed
    ensures p in s.db.payouts
    ensures holder == None ==> s.db.payouts[p].state == Paid
    ensures holder.Some? ==>
              && holder.value.JobText? && holder.value.job.payoutId == p
              && (holder.value in s.redis.dead || exists w :: holder.value in Held(s.redis, w))
  {
    ReachableInv(s, maxAttempts);
    hide Held;
    if s.db.payouts[p].state == Paid { return None; }
    var raw :| NamedBy(s.redis, p, raw);
    return Some(raw);
  }

  /** No two settlements are of one merchant and day. */
  ghost predicate OnePerDay(db: Db) {
    forall a, b :: SameDay(db, a, b) ==> a == b
  }

  ghost predicate SameDay(db: Db, a: nat, b: nat) {
    && a in db.settlements && b in db.settlements
    && db.settlements[a].merchantId == db.settlements[b].merchantId
    && db.settlements[a].date == db.settlements[b].date
  }

  lemma CreateKeepsDays(db: Db, sid: nat, m: int, date: int, amount: int, currency: string)
    requires OnePerDay(db) && sid !in db.settlements
    ensures OnePerDay(CreateTx(db, sid, m, date, amount, currency))
  {
    var db' := CreateTx(db, sid, m, date, amount, currency);
    forall a, b | SameDay(db', a, b)
      ensures a == b
    {
      if a != sid && b != sid { assert SameDay(db, a, b); }
    }
  }

  lemma ExecuteKeepsDays(db: Db, sid: nat, pid: nat)
    requires OnePerDay(db)
    ensures OnePerDay(ExecuteTx(db, sid, pid).0)
  {
    var db' := ExecuteTx(db, sid, pid).0;
    forall a, b | SameDay(db', a, b)
      ensures a == b
    {
      assert SameDay(db, a, b);
    }
  }

  lemma SameSettlements(db: Db, db': Db)
    requires OnePerDay(db) && db'.settlements == db.settlements
    ensures OnePerDay(db')
  {
    forall a, b | SameDay(db', a, b)
      ensures a == b
    {
      assert SameDay(db, a, b);
    }
  }

  lemma StepKeepsDays(s: State, a: Action)
    requires OnePerDay(s.db) && Enabled(s, a)
    ensures OnePerDay(Step(s, a).db)
  {
    hide OnePerDay, Held, IsDueBatch, Fetch, DeadLetter, Promote, MoveBack, PushJobs, Release, RetryOrDead, Bank.Post;
    if a.CreateSettlement? {
      CreateKeepsDays(s.db, a.sid, a.merchantId, a.date, a.amountMinor, a.currency);
    } else if a.CommitExecute? {
      hide ExecuteTx;
      ExecuteKeepsDays(s.db, a.settlement, a.newPayout);
    } else {
      if a.Claim? { ClaimKeepsSettlements(s.db, s.tasks[a.tid].raw.job.payoutId, a.proposed); }
      hide ClaimTx, KeyInUse;
      SameSettlements(s.db, Step(s, a).db);
    }
  }

  lemma ClaimKeepsSettlements(db: Db, pid: nat, proposed: Key)
    ensures ClaimTx(db, pid, proposed).0.settlements == db.settlements
  {
  }

  lemma {:induction false} RunKeepsDays(s: State, actions: seq<Action>)
    requires OnePerDay(s.db) && IsRun(s, actions)
    ensures OnePerDay(After(s, actions).db)
    decreases |actions|
  {
    if actions != [] {
      hide OnePerDay, Step, Enabled;
      StepKeepsDays(s, actions[0]);
      RunKeepsDays(Step(s, actions[0]), actions[1..]);
    }
  }

  /** In every reachable state a merchant has at most one settlement for a day, so one payout, and one
      ledger entry. */
  lemma OneSettlementPerDay(s: State, maxAttempts: int)
    requires Reachable(s, maxAttempts)
    ensures forall a, b :: SameDay(s.db, a, b) ==> a == b
  {
    var actions :| IsRun(Init(maxAttempts), actions) && After(Init(maxAttempts), actions) == s;
    hide IsRun, After;
    RunKeepsDays(Init(maxAttempts), actions);
  }

  ghost predicate Pays(db: Db, p: nat, sid: nat) {
    p in db.payouts && db.payouts[p].settlementId == sid
  }

  ghost predicate Backed(db: Db, sid: nat) {
    exists p :: Pays(db, p, sid)
  }

  ghost predicate AllBacked(db: Db) {
    forall sid :: sid in db.settlements && db.settlements[sid].status == Executing ==> Backed(db, sid)
  }

  lemma TxsKeepBacked(db: Db, db': Db, pid: nat)
    requires AllBacked(db)
    requires || db' == db
             || (exists sid, m, date, amount, currency :: db' == CreateTx(db, sid, m, date, amount, currency))
             || (pid !in db.payouts && exists sid :: db' == ExecuteTx(db, sid, pid).0)
             || (exists key :: db' == ClaimTx(db, pid, key).0)
             || (exists ref :: db' == MarkPaidTx(db, pid, ref))
    ensures AllBacked(db')
  {
    hide KeyInUse, AcceptsSettlement;
    forall sid | sid in db'.settlements && db'.settlements[sid].status == Executing
      ensures Backed(db', sid)
    {
      if sid in db.settlements && db.settlements[sid].status == Executing {
        var p :| Pays(db, p, sid);
        assert Pays(db', p, sid);
      } else {
        assert Pays(db', pid, sid);
      }
    }
  }

  lemma StepKeepsBacked(s: State, a: Action)
    requires AllBacked(s.db) && Enabled(s, a)
    ensures AllBacked(Step(s, a).db)
  {
    hide AllBacked;
    if a.CommitExecute? || a.Claim? || a.MarkPaid? {
      RowStepKeepsBacked(s, a);
    } else {
      hide Held, IsDueBatch, Fetch, DeadLetter, Promote, MoveBack, PushJobs, Release, RetryOrDead, Bank.Post, CreateTx;
      TxsKeepBacked(s.db, Step(s, a).db, 0);
    }
  }

  lemma RowStepKeepsBacked(s: State, a: Action)
    requires AllBacked(s.db) && Enabled(s, a) && (a.CommitExecute? || a.Claim? || a.MarkPaid?)
    ensures AllBacked(Step(s, a).db)
  {
    hide AllBacked, ExecuteTx, ClaimTx, MarkPaidTx;
    var db' := Step(s, a).db;
    match a
    case CommitExecute(sid, pid, _, _) =>
      TxsKeepBacked(s.db, s.db, pid);
      TxsKeepBacked(s.db, db', pid);
    case Claim(tid, key, _) => TxsKeepBacked(s.db, db', s.tasks[tid].raw.job.payoutId);
    case MarkPaid(tid, _) => TxsKeepBacked(s.db, db', s.tasks[tid].raw.job.payoutId);
  }

  lemma {:induction false} RunKeepsBacked(s: State, actions: seq<Action>)
    requires AllBacked(s.db) && IsRun(s, actions)
    ensures AllBacked(After(s, actions).db)
    decreases |actions|
  {
    if actions != [] {
      hide AllBacked, Step, Enabled;
      StepKeepsBacked(s, actions[0]);
      RunKeepsBacked(Step(s, actions[0]), actions[1..]);
    }
  }

  /** A settlement is executing exactly when it has a payout, and it never has two. */
  lemma ExecutedHasOnePayout(s: State, maxAttempts: int, sid: nat)
    requires Reachable(s, maxAttempts) && sid in s.db.settlements
    ensures s.db.settlements[sid].status == Executing <==> Backed(s.db, sid)
    ensures forall p, q :: Pays(s.db, p, sid) && Pays(s.db, q, sid) ==> p == q
  {
    ReachableInv(s, maxAttempts);
    var actions :| IsRun(Init(maxAttempts), actions) && After(Init(maxAttempts), actions) == s;
    RunKeepsBacked(Init(maxAttempts), actions);
    if Backed(s.db, sid) {
      var p :| Pays(s.db, p, sid);
      assert RowOk(s.db, p);
    }
  }

  lemma PushedStep(s: State, a: Action)
    requires Enabled(s, a)
    ensures Step(s, a).pushed == s.pushed + (if a.PushJob? then {a.pid} else {})
  {
    hide Held, WithHeld, IsDueBatch, Fetch, DeadLetter, Promote, MoveBack, PushJobs, Release, RetryOrDead;
    hide ClaimTx, MarkPaidTx, ExecuteTx, CreateTx, Bank.Post, AfterClaim, AfterPay, AfterMark, RequestFor, FirstJob;
  }

  /** `pushed` is true history: on every run it gains exactly the payouts whose first push took place. */
  lemma {:induction false} PushedIsHistory(s: State, actions: seq<Action>, p: nat)
    requires IsRun(s, actions)
    ensures p in After(s, actions).pushed <==> p in s.pushed || PushJob(p) in actions
    decreases |actions|
  {
    if actions != [] {
      PushedStep(s, actions[0]);
      hide Step, Enabled;
      PushedIsHistory(Step(s, actions[0]), actions[1..], p);
      assert actions == [actions[0]] + actions[1..];
    }
  }

  /** Every text in Redis and every running delivery carries exactly the creditor, amount and
      currency of the settlement it came from; attempts stay below the limit, and reach it only in
      DEAD. */
  lemma DebtsCarriedUnchanged(s: State, maxAttempts: int, raw: Raw)
    requires Reachable(s, maxAttempts) && raw.JobText?
    requires Holds(s.redis, raw) || exists t :: t in s.tasks && s.tasks[t].raw == raw
    ensures var job := raw.job;
            && job.payoutId in s.db.payouts
            && var sid := s.db.payouts[job.payoutId].settlementId;
            && sid in s.db.settlements
            && s.db.settlements[sid].merchantId == job.merchantId
            && s.db.settlements[sid].amountMinor == job.amountMinor
            && s.db.settlements[sid].currency == job.currency
    ensures maxAttempts >= 1 ==> raw.job.attempt <= maxAttempts
    ensures maxAttempts >= 1 && raw !in s.redis.dead ==> raw.job.attempt < maxAttempts
  {
    ReachableInv(s, maxAttempts);
    if t :| t in s.tasks && s.tasks[t].raw == raw {
      assert TaskOk(s, s.tasks[t]);
    }
    if Holds(s.redis, raw) { TextHeld(s, raw); }
    hide Inv;
    assert RowOk(s.db, raw.job.payoutId);
  }

  lemma NoneGivenUp(s: State)
    requires TasksInv(s)
    ensures forall t :: t in s.tasks && s.tasks[t].pc.Failing? ==> !s.tasks[t].pc.failure.PermanentFailure?
  {
    forall t | t in s.tasks && s.tasks[t].pc.Failing?
      ensures !s.tasks[t].pc.failure.PermanentFailure?
    {
      assert TaskOk(s, s.tasks[t]);
    }
  }

  lemma UnclaimedIsPaid(s: State, tid: nat, proposed: Key)
    requires DbInv(s.db) && TasksInv(s) && At(s, tid)
    ensures var r := ClaimTx(s.db, s.tasks[tid].raw.job.payoutId, proposed).1;
            r.NotClaimed? ==> r.state == Some(Paid)
  {
    assert TaskOk(s, s.tasks[tid]);
    hide DbInv, TasksInv, ClaimTx;
    ClaimTxKeeps(s.db, s.tasks[tid].raw.job.payoutId, proposed);
  }

  /** handle never finds a payout in an impossible state: a claim that does not succeed reads
      `paid` or fails on the key index, so no delivery ever gives up with PermanentError. */
  lemma PermanentErrorUnreachable(s: State, maxAttempts: int, tid: nat, proposed: Key, fault: Fault)
    requires Reachable(s, maxAttempts)
    requires Enabled(s, Claim(tid, proposed, fault))
    ensures var r := ClaimTx(s.db, s.tasks[tid].raw.job.payoutId, proposed).1;
            r.NotClaimed? ==> r.state == Some(Paid)
    ensures forall t :: t in s.tasks && s.tasks[t].pc.Failing? ==> !s.tasks[t].pc.failure.PermanentFailure?
  {
    hide Reachable, Inv, DbInv, TasksInv, ClaimTx, BooksInv, WireInv, TextsOk, UnsentInv, NotLost, PaidAgrees, TaskOk;
    ReachableInv(s, maxAttempts);
    Parts(s);
    NoneGivenUp(s);
    UnclaimedIsPaid(s, tid, proposed);
  }

  /** Over any run, a payout row only moves forward, and its key and bank reference, once
      written, stay. */
  lemma RowsOnlyMoveForward(s: State, maxAttempts: int, actions: seq<Action>, p: nat)
    requires Reachable(s, maxAttempts) && IsRun(s, actions) && p in s.db.payouts
    ensures p in After(s, actions).db.payouts && RowGrows(s.db.payouts[p], After(s, actions).db.payouts[p])
  {
    ReachableInv(s, maxAttempts);
    hide Inv;
    RunKeeps(s, actions);
  }

  lemma QueuedStep(s: State, a: Action, p: nat)
    requires Enabled(s, a) && (p in s.db.payouts ==> s.db.payouts[p].state == Queued)
    ensures p in s.db.payouts ==> p in Step(s, a).db.payouts
    ensures p in Step(s, a).db.payouts ==> Step(s, a).db.payouts[p].state in {Queued, Sending}
  {
    hide Held, WithHeld, IsDueBatch, RetryOrDead, AfterClaim, AfterPay, AfterMark, Bank.Post;
    if a.Claim? {
      var (db, r) := ClaimTx(s.db, s.tasks[a.tid].raw.job.payoutId, a.proposed);
      assert Step(s, a).db == Committed(a.fault, s.db, db);
    }
  }

  /** Somewhere along the run, or at its start, payout p is being sent. */
  ghost predicate IsSentDuring(s: State, actions: seq<Action>, p: nat)
    requires IsRun(s, actions)
    decreases |actions|
  {
    || (p in s.db.payouts && s.db.payouts[p].state == Sending)
    || (actions != [] && IsSentDuring(Step(s, actions[0]), actions[1..], p))
  }

  /** On every run, a payout that was queued or not there yet is sending before it is paid. */
  lemma {:induction false} PaidOnlyFromSending(s: State, actions: seq<Action>, p: nat)
    requires IsRun(s, actions) && (p in s.db.payouts ==> s.db.payouts[p].state == Queued)
    requires p in After(s, actions).db.payouts && After(s, actions).db.payouts[p].state == Paid
    ensures IsSentDuring(s, actions, p)
    decreases |actions|
  {
    if actions != [] {
      var s1 := Step(s, actions[0]);
      QueuedStep(s, actions[0], p);
      hide Step, Enabled;
      if p in s1.db.payouts && s1.db.payouts[p].state == Sending {
        assert IsSentDuring(s1, actions[1..], p);
      } else {
        PaidOnlyFromSending(s1, actions[1..], p);
      }
    }
  }

  /** Payout p is paid, and delivery tid, if it is one of p, is not on its way to the bank. */
  ghost predicate KeptFromBank(s: State, p: nat, tid: nat) {
    && p in s.db.payouts && s.db.payouts[p].state == Paid
    && (At(s, tid) && s.tasks[tid].raw.job.payoutId == p ==>
          var pc := s.tasks[tid].pc; pc == Fetched || pc == Acking || pc.Failing?)
  }

  lemma PaidStaysPaid(s: State, a: Action, p: nat)
    requires Enabled(s, a) && p in s.db.payouts && s.db.payouts[p].state == Paid
    ensures p in Step(s, a).db.payouts && Step(s, a).db.payouts[p].state == Paid
  {
    hide Held, WithHeld, IsDueBatch, RetryOrDead, AfterClaim, AfterPay, AfterMark, Bank.Post;
    if a.Claim? {
      var (db, r) := ClaimTx(s.db, s.tasks[a.tid].raw.job.payoutId, a.proposed);
      assert Step(s, a).db == Committed(a.fault, s.db, db);
    }
  }

  lemma ClaimKeepsFromBank(s: State, a: Action, p: nat, tid: nat)
    requires Enabled(s, a) && a.Claim? && KeptFromBank(s, p, tid)
    ensures KeptFromBank(Step(s, a), p, tid)
  {
    PaidStaysPaid(s, a, p);
    if a.tid == tid && s.tasks[tid].raw.job.payoutId == p {
      assert ClaimTx(s.db, p, a.proposed).1 == NotClaimed(Some(Paid));
    }
    hide ClaimTx;
  }

  lemma MoveKeepsFromBank(s: State, a: Action, p: nat, tid: nat)
    requires Enabled(s, a) && KeptFromBank(s, p, tid) && (a.CallBank? || a.BankCallEnds? || a.MarkPaid?)
    ensures KeptFromBank(Step(s, a), p, tid)
  {
    PaidStaysPaid(s, a, p);
    hide MarkPaidTx, AfterPay, AfterMark, RequestFor;
  }

  lemma AckKeepsFromBank(s: State, a: Action, p: nat, tid: nat)
    requires Enabled(s, a) && KeptFromBank(s, p, tid) && a.Ack?
    ensures KeptFromBank(Step(s, a), p, tid)
  {
    hide Release;
  }

  lemma FailKeepsFromBank(s: State, a: Action, p: nat, tid: nat)
    requires Enabled(s, a) && KeptFromBank(s, p, tid) && a.FailJob?
    ensures KeptFromBank(Step(s, a), p, tid)
  {
    hide RetryOrDead;
  }

  lemma OtherKeepsFromBank(s: State, a: Action, p: nat, tid: nat)
    requires Enabled(s, a) && KeptFromBank(s, p, tid)
    requires !a.Claim? && !a.CallBank? && !a.BankCallEnds? && !a.MarkPaid? && !a.Ack? && !a.FailJob?
    ensures KeptFromBank(Step(s, a), p, tid)
  {
    PaidStaysPaid(s, a, p);
    hide Held, IsDueBatch, Fetch, DeadLetter, Promote, MoveBack, PushJobs, Bank.Post, ExecuteTx, CreateTx;
  }

  lemma StepKeepsFromBank(s: State, a: Action, p: nat, tid: nat)
    requires Enabled(s, a) && KeptFromBank(s, p, tid)
    ensures KeptFromBank(Step(s, a), p, tid)
  {
    hide KeptFromBank, Step, Enabled;
    if a.Claim? {
      ClaimKeepsFromBank(s, a, p, tid);
    } else if a.CallBank? || a.BankCallEnds? || a.MarkPaid? {
      MoveKeepsFromBank(s, a, p, tid);
    } else if a.Ack? {
      AckKeepsFromBank(s, a, p, tid);
    } else if a.FailJob? {
      FailKeepsFromBank(s, a, p, tid);
    } else {
      OtherKeepsFromBank(s, a, p, tid);
    }
  }

  /** Once a payout is paid, no delivery of it that has not yet claimed it ever reaches the bank,
      on any run: not one fetched already, and none fetched later. */
  lemma {:induction false} PaidIsNotSentAgain(s: State, actions: seq<Action>, p: nat, tid: nat)
    requires IsRun(s, actions) && p in s.db.payouts && s.db.payouts[p].state == Paid
    requires At(s, tid) && s.tasks[tid].raw.job.payoutId == p ==> s.tasks[tid].pc == Fetched
    ensures KeptFromBank(After(s, actions), p, tid)
  {
    RunKeepsFromBank(s, actions, p, tid);
  }

  lemma {:induction false} RunKeepsFromBank(s: State, actions: seq<Action>, p: nat, tid: nat)
    requires IsRun(s, actions) && KeptFromBank(s, p, tid)
    ensures KeptFromBank(After(s, actions), p, tid)
    decreases |actions|
  {
    if actions != [] {
      hide Step, Enabled, KeptFromBank;
      StepKeepsFromBank(s, actions[0], p, tid);
      RunKeepsFromBank(Step(s, actions[0]), actions[1..], p, tid);
    }
  }

  /** Two deliveries of one payout, concurrent or not, call the bank with one and the same
      request. */
  lemma SameRequestForSamePayout(s: State, maxAttempts: int, t: nat, u: nat)
    requires Reachable(s, maxAttempts)
    requires At(s, t) && At(s, u) && s.tasks[t].pc.Calling? && s.tasks[u].pc.Calling?
    requires s.tasks[t].raw.job.payoutId == s.tasks[u].raw.job.payoutId
    ensures s.tasks[t].pc.request == s.tasks[u].pc.request
  {
    ReachableInv(s, maxAttempts);
    assert TaskOk(s, s.tasks[t]) && TaskOk(s, s.tasks[u]);
    var p := s.tasks[t].raw.job.payoutId;
    OneBodyPerPayout(s, s.tasks[t].pc.request, p);
    OneBodyPerPayout(s, s.tasks[u].pc.request, p);
  }

  lemma OneBodyPerPayout(s: State, q: PayRequest, p: nat)
    requires Inv(s) && q in s.sent && HasKey(s.db, p, q.key)
    ensures q.body == BodyFor(p, s.db.payouts[p])
  {
    assert RequestOk(s.db, q);
    var p' :| HasKey(s.db, p', q.key) && q.body == BodyFor(p', s.db.payouts[p']);
    assert p' == p;
  }
}
