/** Every step of the payout protocol keeps the invariant, and the stores only grow. */
module Preservation {
  import opened Common
  import Bank
  import opened Tables
  import opened Queues
  import opened Delivery
  import opened Protocol
  import opened Invariants

  ghost predicate Keeps(s: State, s': State) {
    Inv(s') && Grows(s, s')
  }

  /** The invariant, part by part; and for a task in particular. */
  lemma Parts(s: State)
    requires Inv(s)
    ensures DbInv(s.db) && BooksInv(s.db, s.books) && PaidAgrees(s.db, s.books)
    ensures WireInv(s) && TextsOk(s, s.redis) && UnsentInv(s) && NotLost(s) && TasksInv(s)
    ensures forall t :: t in s.tasks ==> TaskOk(s, s.tasks[t])
  {
  }

  /* ---- steps on the stores: the queue does not change ---- */

  /** A step that leaves Redis alone keeps the invariant when it does so for the stores, the
      wire, and the one task it moves. */
  lemma StoreStepKeeps(s: State, s': State)
    requires Inv(s) && Grows(s, s')
    requires s'.redis == s.redis && s'.pushed == s.pushed
    requires DbInv(s'.db) && BooksInv(s'.db, s'.books) && PaidAgrees(s'.db, s'.books)
    requires forall q :: q in s'.sent ==> q in s.sent || RequestOk(s'.db, q)
    requires forall r :: r in s'.replies ==> r in s.replies || ReplyOk(s'.books, r)
    requires UnsentInv(s')
    requires forall t :: t in s'.tasks ==> (t in s.tasks && s'.tasks[t] == s.tasks[t]) || TaskOk(s', s'.tasks[t])
    ensures Keeps(s, s')
  {
    GrowthKeepsWire(s, s');
    GrowthKeepsQueue(s, s');
    GrowthKeepsNotLost(s, s');
    GrowthKeepsTasks(s, s');
  }

  /** Payouts still to be pushed are left alone by steps that touch only pushed ones. */
  lemma UnsentKept(s: State, s': State)
    requires UnsentInv(s) && Grows(s, s')
    requires s'.unsent == s.unsent && s'.pushed == s.pushed
    requires forall p :: p in s'.db.payouts && p !in s.pushed ==>
                           p in s.db.payouts && s'.db.payouts[p] == s.db.payouts[p]
    ensures UnsentInv(s')
  {
  }

  lemma CreateKeeps(s: State, sid: nat, m: int, date: int, amount: int, currency: string)
    requires Inv(s) && sid !in s.db.settlements
    ensures Keeps(s, s.(db := CreateTx(s.db, sid, m, date, amount, currency)))
  {
    hide Inv, DbInv, BooksInv, PaidAgrees, WireInv, TextsOk, UnsentInv, NotLost, TasksInv, Keeps;
    Parts(s);
    var s' := s.(db := CreateTx(s.db, sid, m, date, amount, currency));
    CreateTxKeeps(s.db, sid, m, date, amount, currency);
    UnsentKept(s, s');
    GrowthKeepsBooks(s.db, s'.db, s.books);
    StoreStepKeeps(s, s');
  }

  lemma CreateTxKeeps(db: Db, sid: nat, m: int, date: int, amount: int, currency: string)
    requires DbInv(db) && sid !in db.settlements
    ensures var db' := CreateTx(db, sid, m, date, amount, currency);
            DbInv(db') && DbGrows(db, db') && db'.payouts == db.payouts
  {
    var db' := CreateTx(db, sid, m, date, amount, currency);
    assert forall p, k :: HasKey(db', p, k) ==> HasKey(db, p, k);
    assert forall p :: p in db'.payouts ==> RowOk(db, p);
  }

  lemma CommitKeeps(s: State, sid: nat, pid: nat, requestId: Option<string>, at: real)
    requires Inv(s) && pid !in s.db.payouts
    ensures Keeps(s, StepCommit(s, sid, pid, requestId, at))
  {
    hide Inv, DbInv, BooksInv, PaidAgrees, WireInv, TextsOk, UnsentInv, NotLost, TasksInv, Grows, Keeps, QueueChange;
    Parts(s);
    var s' := StepCommit(s, sid, pid, requestId, at);
    ExecuteTxKeeps(s.db, sid, pid);
    GrowthKeepsBooks(s.db, s'.db, s.books);
    CommitKeepsUnsent(s, sid, pid, requestId, at);
    StoreStepKeeps(s, s');
  }

  lemma CommitKeepsUnsent(s: State, sid: nat, pid: nat, requestId: Option<string>, at: real)
    requires UnsentInv(s) && NotLost(s) && pid !in s.db.payouts
    requires DbGrows(s.db, StepCommit(s, sid, pid, requestId, at).db)
    ensures UnsentInv(StepCommit(s, sid, pid, requestId, at))
  {
    assert pid !in s.pushed;
  }

  lemma ExecuteTxKeeps(db: Db, sid: nat, pid: nat)
    requires DbInv(db) && pid !in db.payouts
    ensures var db' := ExecuteTx(db, sid, pid).0;
            && DbInv(db') && DbGrows(db, db')
            && (forall p :: p in db'.payouts && p != pid ==> p in db.payouts && db'.payouts[p] == db.payouts[p])
  {
    var (db', row) := ExecuteTx(db, sid, pid);
    if row.Some? {
      forall p | p in db'.payouts
        ensures RowOk(db', p) && (p != pid ==> db'.payouts[p].settlementId != sid)
      {
        if p != pid { assert RowOk(db, p); }
      }
      hide RowOk;
      assert forall p, k :: HasKey(db', p, k) ==> HasKey(db, p, k);
      hide HasKey;
    }
  }

  /** Rewriting one row forward keeps the tables in order, if a new key is nobody else's. */
  lemma RowChangeKeeps(db: Db, pid: nat, row: Payout)
    requires DbInv(db) && pid in db.payouts && RowGrows(db.payouts[pid], row)
    requires row.state in {Queued, Sending, Paid}
    requires (row.state == Queued <==> row.key == None) && (row.state == Paid <==> row.bankRef.Some?)
    requires row.key.Some? ==> !KeyInUse(db, pid, row.key.value)
    ensures var db' := db.(payouts := db.payouts[pid := row]); DbInv(db') && DbGrows(db, db')
  {
    var db' := db.(payouts := db.payouts[pid := row]);
    assert RowOk(db, pid);
    forall p | p in db'.payouts
      ensures RowOk(db', p)
    {
      if p != pid { assert RowOk(db, p); }
    }
    hide RowOk;
    forall p, q, k | HasKey(db', p, k) && HasKey(db', q, k)
      ensures p == q
    {
      assert p != pid ==> HasKey(db, p, k);
      assert q != pid ==> HasKey(db, q, k);
    }
  }

  /** A claim keeps keys unique whatever key it proposes: a written key stays, and the unique
      index refuses one in use. */
  lemma ClaimTxKeeps(db: Db, pid: nat, proposed: Key)
    requires DbInv(db)
    ensures var (db', r) := ClaimTx(db, pid, proposed);
            && DbInv(db') && DbGrows(db, db')
            && (r.Claimed? ==> HasKey(db', pid, r.key))
            && (r.NotClaimed? && pid in db.payouts ==> r.state == Some(Paid) && db.payouts[pid].state == Paid)
            && (forall p :: p in db'.payouts && (p != pid || db'.payouts[p].state == Paid) ==>
                              p in db.payouts && db'.payouts[p] == db.payouts[p])
  {
    var (db', r) := ClaimTx(db, pid, proposed);
    assert pid in db.payouts ==> RowOk(db, pid);
    hide DbInv, RowOk;
    if r.Claimed? { RowChangeKeeps(db, pid, db'.payouts[pid]); }
  }

  lemma ClaimKeeps(s: State, tid: nat, proposed: Key, fault: Fault)
    requires Inv(s) && Enabled(s, Claim(tid, proposed, fault))
    ensures Keeps(s, StepClaim(s, tid, proposed, fault))
  {
    hide Inv, DbInv, BooksInv, PaidAgrees, WireInv, TextsOk, UnsentInv, NotLost, TasksInv, Grows, Keeps, QueueChange;
    Parts(s);
    var s' := StepClaim(s, tid, proposed, fault);
    var t := s.tasks[tid];
    assert TaskOk(s, t);
    ClaimGrows(s, tid, proposed, fault);
    GrowthKeepsBooks(s.db, s'.db, s.books);
    UnsentKept(s, s');
    ClaimKeepsTask(s, tid, proposed, fault);
    hide TaskOk, ClaimTx;
    StoreStepKeeps(s, s');
  }

  lemma ClaimGrows(s: State, tid: nat, proposed: Key, fault: Fault)
    requires DbInv(s.db) && Enabled(s, Claim(tid, proposed, fault))
    ensures var s' := StepClaim(s, tid, proposed, fault);
            && DbInv(s'.db) && Grows(s, s') && DbGrows(s.db, s'.db)
            && (forall p :: p in s'.db.payouts
                            && (p != s.tasks[tid].raw.job.payoutId || s'.db.payouts[p].state == Paid) ==>
                              p in s.db.payouts && s'.db.payouts[p] == s.db.payouts[p])
  {
    assert DbGrows(s.db, s.db);
    hide DbInv, ClaimTx, RowGrows;
    ClaimTxKeeps(s.db, s.tasks[tid].raw.job.payoutId, proposed);
  }

  lemma ClaimKeepsTask(s: State, tid: nat, proposed: Key, fault: Fault)
    requires DbInv(s.db) && Enabled(s, Claim(tid, proposed, fault)) && TaskOk(s, s.tasks[tid])
    requires Grows(s, StepClaim(s, tid, proposed, fault))
    ensures TaskOk(StepClaim(s, tid, proposed, fault), StepClaim(s, tid, proposed, fault).tasks[tid])
  {
    var s' := StepClaim(s, tid, proposed, fault);
    ClaimTxKeeps(s.db, s.tasks[tid].raw.job.payoutId, proposed);
    GrowthKeepsText(s, s', s.tasks[tid].raw, LastAttempt(s.maxAttempts));
  }

  lemma MarkTxKeeps(db: Db, pid: nat, ref: string)
    requires DbInv(db)
    ensures var db' := MarkPaidTx(db, pid, ref);
            && DbInv(db') && DbGrows(db, db')
            && (pid in db.payouts && db.payouts[pid].key.Some? ==> db'.payouts[pid].state == Paid)
            && (forall p :: p in db'.payouts && p != pid ==> p in db.payouts && db'.payouts[p] == db.payouts[p])
  {
    if pid in db.payouts {
      assert RowOk(db, pid);
      if db.payouts[pid].key.Some? { KeysNotShared(db, pid); }
      hide DbInv, RowOk, KeyInUse;
      if db.payouts[pid].state == Sending { RowChangeKeeps(db, pid, MarkPaidTx(db, pid, ref).payouts[pid]); }
    }
  }

  lemma KeysNotShared(db: Db, pid: nat)
    requires DbInv(db) && pid in db.payouts && db.payouts[pid].key.Some?
    ensures !KeyInUse(db, pid, db.payouts[pid].key.value)
  {
    hide RowOk;
    var k := db.payouts[pid].key.value;
    forall q | q in db.payouts && db.payouts[q].key == Some(k)
      ensures q == pid
    {
      assert HasKey(db, q, k) && HasKey(db, pid, k);
    }
  }

  lemma MarkGrows(s: State, tid: nat, fault: Fault)
    requires DbInv(s.db) && Enabled(s, MarkPaid(tid, fault))
    ensures var s' := StepMark(s, tid, fault);
            && DbInv(s'.db) && Grows(s, s')
            && (forall p :: p in s'.db.payouts && p != s.tasks[tid].raw.job.payoutId ==>
                              p in s.db.payouts && s'.db.payouts[p] == s.db.payouts[p])
  {
    MarkTxKeeps(s.db, s.tasks[tid].raw.job.payoutId, s.tasks[tid].pc.bankRef);
  }

  lemma MarkKeeps(s: State, tid: nat, fault: Fault)
    requires Inv(s) && Enabled(s, MarkPaid(tid, fault))
    ensures Keeps(s, StepMark(s, tid, fault))
  {
    hide Inv, DbInv, BooksInv, PaidAgrees, WireInv, TextsOk, UnsentInv, NotLost, TasksInv, Grows, Keeps, QueueChange;
    Parts(s);
    var s' := StepMark(s, tid, fault);
    MarkGrows(s, tid, fault);
    assert TaskOk(s, s.tasks[tid]);
    UnsentKept(s, s');
    MarkKeepsTask(s, tid, fault);
    GrowthKeepsBooks(s.db, s'.db, s.books);
    StoreStepKeeps(s, s');
  }

  lemma MarkKeepsTask(s: State, tid: nat, fault: Fault)
    requires DbInv(s.db) && Enabled(s, MarkPaid(tid, fault)) && TaskOk(s, s.tasks[tid])
    requires Grows(s, StepMark(s, tid, fault)) && PaidAgrees(s.db, s.books)
    ensures TaskOk(StepMark(s, tid, fault), StepMark(s, tid, fault).tasks[tid])
    ensures PaidAgrees(StepMark(s, tid, fault).db, s.books)
  {
    var s' := StepMark(s, tid, fault);
    var t := s.tasks[tid];
    MarkTxKeeps(s.db, t.raw.job.payoutId, t.pc.bankRef);
    GrowthKeepsText(s, s', t.raw, LastAttempt(s.maxAttempts));
    assert RowOk(s.db, t.raw.job.payoutId);
  }

  lemma CallKeeps(s: State, tid: nat)
    requires Inv(s) && Enabled(s, CallBank(tid))
    ensures Keeps(s, StepCall(s, tid))
  {
    hide Inv, DbInv, BooksInv, PaidAgrees, WireInv, TextsOk, UnsentInv, NotLost, TasksInv, Grows, Keeps, QueueChange;
    Parts(s);
    var s' := StepCall(s, tid);
    var t := s.tasks[tid];
    var q := RequestFor(t.raw.job, t.pc.key);
    assert TaskOk(s, t);
    assert HasKey(s.db, t.raw.job.payoutId, q.key);
    assert q.body == BodyFor(t.raw.job.payoutId, s.db.payouts[t.raw.job.payoutId]);
    assert RequestOk(s.db, q);
    assert TaskOk(s', s'.tasks[tid]);
    StoreStepKeeps(s, s');
  }

  /** A request with a key the bank has not seen is for a payout it has not paid. */
  lemma NewKeyIsUnpaid(db: Db, books: Bank.Books, q: PayRequest, e: Bank.Entry)
    requires DbInv(db) && BooksInv(db, books) && RequestOk(db, q)
    requires q.key !in books.byKey && e in books.ledger
    ensures e.reference != q.body.reference
  {
    if e.reference == q.body.reference {
      var p :| HasKey(db, p, q.key) && q.body == BodyFor(p, db.payouts[p]);
      assert EntryKeyed(books, e);
      var k: Key :| k in books.byKey && books.byKey[k] == e;
      assert KeyOk(db, books, k);
      var p' :| HasKey(db, p', k) && PaysFor(e, p', db.payouts[p']);
      ReferenceInjective(p, p');
      assert false;
    }
  }

  lemma PostedKeysOk(db: Db, books: Bank.Books, q: PayRequest, e: Bank.Entry)
    requires BooksInv(db, books) && RequestOk(db, q) && q.key !in books.byKey
    requires exists ref, ts :: e == Bank.EntryFor(q.body, ref, ts)
    ensures var books' := Bank.Books(books.ledger + [e], books.byKey[q.key := e]);
            && (forall k: string :: k in books'.byKey ==> k != "" && KeyOk(db, books', k))
            && (forall x :: x in books'.ledger ==> EntryKeyed(books', x))
  {
    var books' := Bank.Books(books.ledger + [e], books.byKey[q.key := e]);
    forall k: string | k in books'.byKey
      ensures k != "" && KeyOk(db, books', k)
    {
      if k == q.key {
        var p :| HasKey(db, p, q.key) && q.body == BodyFor(p, db.payouts[p]);
        assert PaysFor(e, p, db.payouts[p]);
      } else {
        assert KeyOk(db, books, k);
      }
    }
    forall x | x in books'.ledger
      ensures EntryKeyed(books', x)
    {
      if x in books.ledger {
        assert EntryKeyed(books, x);
        var k: Key :| k in books.byKey && books.byKey[k] == x;
        assert books'.byKey[k] == x;
      } else {
        assert books'.byKey[q.key] == x;
      }
    }
  }

  lemma DistinctAppend(ledger: seq<Bank.Entry>, e: Bank.Entry)
    requires Bank.DistinctReferences(ledger)
    requires forall x :: x in ledger ==> x.reference != e.reference
    ensures Bank.DistinctReferences(ledger + [e])
  {
  }

  lemma AllUnpaid(db: Db, books: Bank.Books, q: PayRequest)
    requires DbInv(db) && BooksInv(db, books) && RequestOk(db, q) && q.key !in books.byKey
    ensures forall x :: x in books.ledger ==> x.reference != q.body.reference
  {
    hide DbInv, BooksInv, RequestOk;
    forall x | x in books.ledger
      ensures x.reference != q.body.reference
    {
      NewKeyIsUnpaid(db, books, q, x);
    }
  }

  lemma PostedBooks(db: Db, books: Bank.Books, q: PayRequest, e: Bank.Entry)
    requires BooksInv(db, books) && RequestOk(db, q) && q.key !in books.byKey
    requires exists ref, ts :: e == Bank.EntryFor(q.body, ref, ts)
    requires forall x :: x in books.ledger ==> x.reference != q.body.reference
    ensures var books' := Bank.Books(books.ledger + [e], books.byKey[q.key := e]);
            BooksInv(db, books') && BooksGrow(books, books')
  {
    PostedKeysOk(db, books, q, e);
    DistinctAppend(books.ledger, e);
    hide RequestOk, KeyOk, EntryKeyed, Bank.DistinctReferences;
  }

  lemma PostKeeps(db: Db, books: Bank.Books, q: PayRequest, ref: string, ts: real)
    requires DbInv(db) && BooksInv(db, books) && RequestOk(db, q)
    ensures var (books', e, _) := Bank.Post(books, q.body, Some(q.key), ref, ts);
            && BooksInv(db, books') && BooksGrow(books, books')
            && q.key in books'.byKey && books'.byKey[q.key] == e
  {
    hide DbInv, BooksInv, RequestOk;
    if q.key !in books.byKey {
      AllUnpaid(db, books, q);
      PostedBooks(db, books, q, Bank.EntryFor(q.body, ref, ts));
    }
  }

  lemma BankKeeps(s: State, q: PayRequest, ref: string, ts: real)
    requires Inv(s) && q in s.sent
    ensures Keeps(s, StepBank(s, q, ref, ts))
  {
    hide Inv, DbInv, BooksInv, TextsOk, UnsentInv, NotLost, TasksInv, Keeps;
    Parts(s);
    assert RequestOk(s.db, q);
    PostKeeps(s.db, s.books, q, ref, ts);
    StoreStepKeeps(s, StepBank(s, q, ref, ts));
  }

  lemma CallEndsKeeps(s: State, tid: nat, r: Bank.PayResult)
    requires Inv(s) && Enabled(s, BankCallEnds(tid, r))
    ensures Keeps(s, AtPc(s, tid, AfterPay(r)))
  {
    hide Inv, DbInv, BooksInv, PaidAgrees, WireInv, TextsOk, UnsentInv, NotLost, TasksInv, Grows, Keeps, QueueChange;
    Parts(s);
    var s' := AtPc(s, tid, AfterPay(r));
    assert TaskOk(s, s.tasks[tid]);
    if r.Ok? { assert ReplyOk(s.books, (s.tasks[tid].pc.request, r.bankRef)); }
    assert TaskOk(s', s'.tasks[tid]);
    StoreStepKeeps(s, s');
  }

  /* ---- the queue ---- */

  /** What a change of Redis must do so that nothing owed is lost: every text that disappears
      names a payout that is paid or still named, and every new text is in order. */
  ghost predicate QueueChange(s: State, redis: Redis) {
    && TextsOk(s, redis)
    && (forall raw: Raw :: raw.JobText? && Holds(s.redis, raw) && !Holds(redis, raw) ==>
                             Settled(s, redis, raw.job.payoutId))
  }

  ghost predicate Settled(s: State, redis: Redis, pid: nat) {
    pid in s.db.payouts && (s.db.payouts[pid].state == Paid || Named(redis, pid))
  }

  lemma NotLostAfterChange(s: State, redis: Redis, pid: nat)
    requires QueueChange(s, redis) && Settled(s, s.redis, pid)
    ensures Settled(s, redis, pid)
  {
    if s.db.payouts[pid].state != Paid {
      var raw :| NamedBy(s.redis, pid, raw);
      if Holds(redis, raw) { assert NamedBy(redis, pid, raw); }
    }
  }

  lemma NotLostAfter(s: State, s': State)
    requires NotLost(s) && QueueChange(s, s'.redis) && s'.db == s.db && s'.pushed == s.pushed
    ensures NotLost(s')
  {
    forall p | p in s.pushed
      ensures Settled(s, s'.redis, p)
    {
      assert Settled(s, s.redis, p);
      NotLostAfterChange(s, s'.redis, p);
    }
  }

  lemma TextsAfter(s: State, s': State)
    requires TextsOk(s, s'.redis) && s'.db == s.db && s'.pushed == s.pushed && s'.maxAttempts == s.maxAttempts
    ensures TextsOk(s', s'.redis)
  {
    hide Held;
    assert forall raw, m :: TextOk(s, raw, m) ==> TextOk(s', raw, m);
  }

  lemma UnsentAfter(s: State, s': State)
    requires UnsentInv(s) && s'.unsent == s.unsent && s'.db == s.db && s'.pushed == s.pushed
    ensures UnsentInv(s')
  {
  }

  lemma SameStoresGrow(s: State, s': State)
    requires s' == s.(redis := s'.redis, tasks := s'.tasks)
    ensures Grows(s, s')
  {
  }

  lemma QueueStepKeeps(s: State, s': State)
    requires Inv(s) && QueueChange(s, s'.redis)
    requires s' == s.(redis := s'.redis, tasks := s'.tasks)
    requires forall t :: t in s'.tasks ==> (t in s.tasks && s'.tasks[t] == s.tasks[t]) || TaskOk(s', s'.tasks[t])
    ensures Keeps(s, s')
  {
    assert TextsOk(s, s'.redis);
    Parts(s);
    hide DbInv, BooksInv, PaidAgrees, WireInv, TextsOk, UnsentInv, NotLost, TasksInv, TaskOk, Grows, QueueChange;
    SameStoresGrow(s, s');
    NotLostAfter(s, s');
    TextsAfter(s, s');
    UnsentAfter(s, s');
    GrowthKeepsTasks(s, s');
    GrowthKeepsWire(s, s');
  }

  lemma PushEffect(r: Redis, raw: Raw)
    ensures var r' := PushJobs(r, raw);
            && (forall w :: Held(r', w) == Held(r, w))
            && (forall x :: Holds(r, x) ==> Holds(r', x))
            && Holds(r', raw)
  {
    var r' := PushJobs(r, raw);
    assert forall w :: Held(r', w) == Held(r, w);
    assert raw in r'.jobs;
  }

  lemma PushKeepsNotLost(s: State, pid: nat)
    requires NotLost(s) && UnsentInv(s) && pid in s.unsent
    ensures NotLost(Step(s, PushJob(pid)))
  {
    var s' := Step(s, PushJob(pid));
    var raw := JobText(s.unsent[pid]);
    PushEffect(s.redis, raw);
    assert NamedBy(s'.redis, pid, raw);
    forall p | p in s.pushed && s.db.payouts[p].state != Paid
      ensures Named(s'.redis, p)
    {
      var x :| NamedBy(s.redis, p, x);
      assert NamedBy(s'.redis, p, x);
    }
  }

  lemma PushKeepsTexts(s: State, pid: nat)
    requires TextsOk(s, s.redis) && UnsentInv(s) && pid in s.unsent
    ensures var s' := Step(s, PushJob(pid)); TextsOk(s', s'.redis) && UnsentInv(s')
  {
    var s' := Step(s, PushJob(pid));
    PushEffect(s.redis, JobText(s.unsent[pid]));
    forall raw, m | TextOk(s, raw, m)
      ensures TextOk(s', raw, m)
    {
      GrowthKeepsText(s, s', raw, m);
    }
  }

  lemma PushGrows(s: State, pid: nat)
    requires pid in s.unsent
    ensures var s' := Step(s, PushJob(pid));
            && Grows(s, s') && s'.db == s.db && s'.books == s.books
            && s'.sent == s.sent && s'.replies == s.replies && s'.tasks == s.tasks
  {
    hide PushJobs;
  }

  lemma PushKeeps(s: State, pid: nat)
    requires Inv(s) && pid in s.unsent
    ensures Keeps(s, Step(s, PushJob(pid)))
  {
    Parts(s);
    var s' := Step(s, PushJob(pid));
    PushGrows(s, pid);
    PushKeepsNotLost(s, pid);
    PushKeepsTexts(s, pid);
    hide DbInv, BooksInv, PaidAgrees, WireInv, TextsOk, UnsentInv, NotLost, TasksInv, TaskOk, Grows, Step;
    GrowthKeepsWire(s, s');
    GrowthKeepsTasks(s, s');
  }

  lemma JunkPushKeeps(s: State, text: string)
    requires Inv(s)
    ensures Keeps(s, Step(s, PushJunk(text)))
  {
    var s' := Step(s, PushJunk(text));
    assert forall w :: Held(s'.redis, w) == Held(s.redis, w);
    assert forall raw :: Holds(s.redis, raw) ==> Holds(s'.redis, raw);
    QueueStepKeeps(s, s');
  }

  lemma LeaseKeeps(s: State, leases: set<WorkerId>)
    requires Inv(s)
    ensures Keeps(s, s.(redis := s.redis.(leases := leases)))
  {
    var s' := s.(redis := s.redis.(leases := leases));
    assert forall w :: Held(s'.redis, w) == Held(s.redis, w);
    assert forall raw :: Holds(s.redis, raw) ==> Holds(s'.redis, raw);
    QueueStepKeeps(s, s');
  }

  lemma FetchEffect(r: Redis, w: WorkerId)
    requires r.jobs != []
    ensures var r' := Fetch(r, w);
            && (forall x :: Holds(r, x) ==> Holds(r', x))
            && (forall v, x :: x in Held(r', v) ==> x in Held(r, v) || x in r.jobs)
            && (forall x :: x in r'.jobs ==> x in r.jobs)
            && r'.retry == r.retry && r'.dead == r.dead
  {
    var r' := Fetch(r, w);
    var last := |r.jobs| - 1;
    assert r.jobs == r.jobs[..last] + [r.jobs[last]];
    assert r.jobs[last] in Held(r', w);
    forall x | Holds(r, x)
      ensures Holds(r', x)
    {
      if v :| x in Held(r, v) { assert x in Held(r', v); }
    }
  }

  lemma FetchKeeps(s: State, w: WorkerId, tid: nat)
    requires Inv(s) && s.redis.jobs != []
    ensures Keeps(s, StepFetch(s, w, tid))
  {
    var s' := StepFetch(s, w, tid);
    FetchEffect(s.redis, w);
    assert s.redis.jobs[|s.redis.jobs| - 1] in s.redis.jobs;
    forall v, x | x in Held(s'.redis, v)
      ensures TextOk(s, x, LastAttempt(s.maxAttempts))
    {
      assert x in Held(s.redis, v) || x in s.redis.jobs;
    }
    assert TextsOk(s, s'.redis);
    QueueStepKeeps(s, s');
  }

  /** LREM takes at most one copy of one text out of one list. */
  lemma ReleaseEffect(r: Redis, w: WorkerId, raw: Raw)
    ensures var r' := Release(r, w, raw);
            && (forall v, x :: x in Held(r', v) ==> x in Held(r, v))
            && (forall x :: x != raw && Holds(r, x) ==> Holds(r', x))
            && r'.jobs == r.jobs && r'.retry == r.retry && r'.dead == r.dead
  {
    var r' := Release(r, w, raw);
    forall v, x | x in Held(r', v)
      ensures x in Held(r, v)
    {
      if v == w { RemoveFirstKeepsOthers(Held(r, w), raw, x); }
    }
    forall x | x != raw && Holds(r, x)
      ensures Holds(r', x)
    {
      if v :| x in Held(r, v) {
        RemoveFirstKeepsOthers(Held(r, w), raw, x);
        assert x in Held(r', v);
      }
    }
  }

  /** Taking a text out is harmless when its payout is settled without it. */
  lemma ReleaseChange(s: State, added: Redis, w: WorkerId, raw: Raw)
    requires TextsOk(s, added)
    requires forall x :: Holds(s.redis, x) ==> Holds(added, x)
    requires raw.JobText? ==> Settled(s, Release(added, w, raw), raw.job.payoutId)
    ensures QueueChange(s, Release(added, w, raw))
  {
    hide Release, TextOk, Held, Holds, Settled;
    ReleaseEffect(added, w, raw);
  }

  lemma CommittedChange(s: State, fault: Fault, redis: Redis)
    requires TextsOk(s, s.redis) && QueueChange(s, redis)
    ensures QueueChange(s, Committed(fault, s.redis, redis))
  {
  }

  lemma AckKeeps(s: State, tid: nat, fault: Fault)
    requires Inv(s) && Enabled(s, Ack(tid, fault))
    ensures Keeps(s, StepAck(s, tid, fault))
  {
    hide Inv, DbInv, BooksInv, PaidAgrees, WireInv, TextsOk, UnsentInv, NotLost, TasksInv, Grows, Keeps, QueueChange;
    Parts(s);
    var t := s.tasks[tid];
    assert TaskOk(s, t);
    var r', s' := Release(s.redis, t.worker, t.raw), StepAck(s, tid, fault);
    ReleaseChange(s, s.redis, t.worker, t.raw);
    CommittedChange(s, fault, r');
    if fault != Works { AckKeepsTask(s, tid, fault); }
    hide Release, TaskOk, Holds, Settled;
    QueueStepKeeps(s, s');
  }

  lemma AckKeepsTask(s: State, tid: nat, fault: Fault)
    requires At(s, tid) && TaskOk(s, s.tasks[tid]) && fault != Works
    ensures var s' := StepAck(s, tid, fault); TaskOk(s', s'.tasks[tid])
  {
    hide Release;
  }

  lemma AddedTexts(s: State, again: Raw, retry: bool, due: real) returns (added: Redis)
    requires TextsOk(s, s.redis)
    requires TextOk(s, again, if retry then LastAttempt(s.maxAttempts) else LastAttempt(s.maxAttempts) + 1)
    ensures added == if retry then s.redis.(retry := s.redis.retry[again := due])
                     else s.redis.(dead := [again] + s.redis.dead)
    ensures TextsOk(s, added)
    ensures forall x :: Holds(s.redis, x) ==> Holds(added, x)
  {
    added := if retry then s.redis.(retry := s.redis.retry[again := due])
             else s.redis.(dead := [again] + s.redis.dead);
    assert forall v :: Held(added, v) == Held(s.redis, v);
  }

  lemma FailChange(s: State, w: WorkerId, job: Job, f: Failure, due: real)
    requires TextsOk(s, s.redis) && TextOk(s, JobText(job), LastAttempt(s.maxAttempts))
    ensures var r' := RetryOrDead(s.redis, w, job, f, s.maxAttempts, due);
            QueueChange(s, r') && NamedBy(r', job.payoutId, JobText(Again(job, f)))
  {
    var again := JobText(Again(job, f));
    var added := AddedTexts(s, again, GoesToRetry(job, f, s.maxAttempts), due);
    var r' := RetryOrDead(s.redis, w, job, f, s.maxAttempts, due);
    assert r' == Release(added, w, JobText(job));
    assert again in r'.retry || again in r'.dead;
    assert NamedBy(r', job.payoutId, again);
    ReleaseChange(s, added, w, JobText(job));
  }

  lemma FailKeeps(s: State, tid: nat, due: real, fault: Fault)
    requires Inv(s) && Enabled(s, FailJob(tid, due, fault))
    ensures Keeps(s, StepFail(s, tid, due, fault))
  {
    hide Inv, DbInv, BooksInv, PaidAgrees, WireInv, TextsOk, UnsentInv, NotLost, TasksInv, Grows, Keeps, QueueChange;
    Parts(s);
    var t := s.tasks[tid];
    assert TaskOk(s, t);
    FailChange(s, t.worker, t.raw.job, t.pc.failure, due);
    CommittedChange(s, fault, RetryOrDead(s.redis, t.worker, t.raw.job, t.pc.failure, s.maxAttempts, due));
    QueueStepKeeps(s, StepFail(s, tid, due, fault));
  }

  lemma DiscardKeeps(s: State, tid: nat, fault: Fault)
    requires Inv(s) && Enabled(s, DiscardJunk(tid, fault))
    ensures Keeps(s, StepJunk(s, tid, fault))
  {
    hide Inv, DbInv, BooksInv, PaidAgrees, WireInv, TextsOk, UnsentInv, NotLost, TasksInv, Grows, Keeps, QueueChange;
    Parts(s);
    var t := s.tasks[tid];
    var added := AddedTexts(s, t.raw, false, 0.0);
    ReleaseChange(s, added, t.worker, t.raw);
    CommittedChange(s, fault, Release(added, t.worker, t.raw));
    QueueStepKeeps(s, StepJunk(s, tid, fault));
  }

  lemma RecoverKeeps(s: State, rescuer: WorkerId, owner: WorkerId)
    requires Inv(s) && Held(s.redis, owner) != []
    ensures Keeps(s, s.(redis := MoveBack(s.redis, owner)))
  {
    var r' := MoveBack(s.redis, owner);
    var list := Held(s.redis, owner);
    assert list == list[..|list| - 1] + [list[|list| - 1]];
    forall x | Holds(s.redis, x)
      ensures Holds(r', x)
    {
      if x in list {
        assert x in r'.jobs || x in Held(r', owner);
      } else if v :| x in Held(s.redis, v) {
        assert x in Held(r', v);
      }
    }
    assert forall v, x :: x in Held(r', v) ==> x in Held(s.redis, v);
    assert forall x :: x in r'.jobs ==> x in s.redis.jobs || x in list;
    QueueStepKeeps(s, s.(redis := r'));
  }

  lemma PromoteKeeps(s: State, now: real, batch: seq<Raw>)
    requires Inv(s) && IsDueBatch(s.redis.retry, now, PROMOTE_LIMIT, batch)
    ensures Keeps(s, s.(redis := Promote(s.redis, batch)))
  {
    var r' := Promote(s.redis, batch);
    assert forall w :: Held(r', w) == Held(s.redis, w);
    assert forall x :: x in s.redis.retry ==> x in r'.retry || x in r'.jobs;
    assert forall x :: x in r'.jobs ==> x in s.redis.jobs || x in s.redis.retry;
    QueueStepKeeps(s, s.(redis := r'));
  }

  /** Requests and deliveries may vanish, and lease checks happen, at any time. */
  lemma QuietKeeps(s: State, unsent: map<nat, Job>, tasks: map<nat, Task>, recovering: set<(WorkerId, WorkerId)>)
    requires Inv(s)
    requires forall p :: p in unsent ==> p in s.unsent && unsent[p] == s.unsent[p]
    requires forall t :: t in tasks ==> t in s.tasks && tasks[t] == s.tasks[t]
    ensures Keeps(s, s.(unsent := unsent, tasks := tasks, recovering := recovering))
  {
    hide Inv, DbInv, BooksInv, PaidAgrees, WireInv, TextsOk, NotLost, TasksInv, Keeps;
    Parts(s);
    StoreStepKeeps(s, s.(unsent := unsent, tasks := tasks, recovering := recovering));
  }

  /** Every step, by anyone, in any order. */
  lemma StepKeeps(s: State, a: Action)
    requires Inv(s) && Enabled(s, a)
    ensures Keeps(s, Step(s, a))
  {
    hide Inv, DbInv, BooksInv, PaidAgrees, WireInv, TextsOk, UnsentInv, NotLost, TasksInv, Grows, Keeps, QueueChange;
    hide StepCommit, StepFetch, StepJunk, StepClaim, StepCall, StepBank, StepMark, StepAck, StepFail;
    hide Held, MoveBack, Promote, PushJobs, CreateTx, IsDueBatch;
    match a
    case CreateSettlement(sid, m, date, amount, currency) => CreateKeeps(s, sid, m, date, amount, currency);
    case CommitExecute(sid, pid, requestId, at) => CommitKeeps(s, sid, pid, requestId, at);
    case PushJob(pid) => PushKeeps(s, pid);
    case ApiDies(pid) => QuietKeeps(s, s.unsent - {pid}, s.tasks, s.recovering);
    case PushJunk(text) => JunkPushKeeps(s, text);
    case Heartbeat(w) => LeaseKeeps(s, s.redis.leases + {w});
    case LeaseEnds(w) => LeaseKeeps(s, s.redis.leases - {w});
    case FetchJob(w, tid) => FetchKeeps(s, w, tid);
    case DiscardJunk(tid, fault) => DiscardKeeps(s, tid, fault);
    case Claim(tid, proposed, fault) => ClaimKeeps(s, tid, proposed, fault);
    case CallBank(tid) => CallKeeps(s, tid);
    case BankHandles(q, ref, ts) => BankKeeps(s, q, ref, ts);
    case BankCallEnds(tid, r) => CallEndsKeeps(s, tid, r);
    case MarkPaid(tid, fault) => MarkKeeps(s, tid, fault);
    case Ack(tid, fault) => AckKeeps(s, tid, fault);
    case FailJob(tid, due, fault) => FailKeeps(s, tid, due, fault);
    case Lose(tids) => QuietKeeps(s, s.unsent, s.tasks - tids, s.recovering);
    case SeeLeaseGone(rescuer, owner) => QuietKeeps(s, s.unsent, s.tasks, s.recovering + {(rescuer, owner)});
    case Recover(rescuer, owner) => RecoverKeeps(s, rescuer, owner);
    case PromoteDue(now, batch) => PromoteKeeps(s, now, batch);
  }

  /** Whole runs. */
  lemma {:induction false} RunKeeps(s: State, actions: seq<Action>)
    requires Inv(s) && IsRun(s, actions)
    ensures Keeps(s, After(s, actions))
    decreases |actions|
  {
    if actions != [] {
      var s1 := Step(s, actions[0]);
      StepKeeps(s, actions[0]);
      RunKeeps(s1, actions[1..]);
      GrowthIsTransitive(s, s1, After(s, actions));
    }
  }

  lemma ReachableInv(s: State, maxAttempts: int)
    requires Reachable(s, maxAttempts)
    ensures Inv(s) && s.maxAttempts == maxAttempts
  {
    InitInv(maxAttempts);
    var actions :| IsRun(Init(maxAttempts), actions) && After(Init(maxAttempts), actions) == s;
    RunKeeps(Init(maxAttempts), actions);
  }
}
