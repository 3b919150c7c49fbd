/** The payout service as a state machine: every SQL transaction, Redis command and bank call of
    the API, the workers and the bank is one atomic step, taken in any order by anyone. */
module Protocol {
  import opened Common
  import Bank
  import opened Tables
  import opened Queues
  import opened Delivery

  /** A thread that has taken a job: its worker, the exact text it took, where it stands. */
  datatype Task = Task(worker: WorkerId, raw: Raw, pc: Pc)

  datatype State = State(
    maxAttempts: int,
    db: Db,
    books: Bank.Books,
    redis: Redis,
    unsent: map<nat, Job>,             // API requests between their commit and their LPUSH
    tasks: map<nat, Task>,             // running deliveries
    sent: set<PayRequest>,             // bank requests on the wire; each may arrive at any time, repeatedly or never
    replies: set<(PayRequest, string)>,  // answers of the bank on their way back
    recovering: set<(WorkerId, WorkerId)>,  // (rescuer, owner) past the lease check
    pushed: set<nat>                   // history: payouts whose first job reached JOBS
  )

  function Init(maxAttempts: int): State {
    State(maxAttempts, Db(map[], map[]), Bank.Books([], map[]), Redis([], map[], map[], [], {}),
          map[], map[], {}, {}, {}, {})
  }

  datatype Action =
    | CreateSettlement(sid: nat, merchantId: int, date: int, amountMinor: int, currency: string)
    | CommitExecute(settlement: nat, newPayout: nat, requestId: Option<string>, at: real)
    | PushJob(pid: nat)
    | ApiDies(pid: nat)
    | PushJunk(text: string)
    | Heartbeat(worker: WorkerId)
    | LeaseEnds(worker: WorkerId)
    | FetchJob(worker: WorkerId, tid: nat)
    | DiscardJunk(tid: nat, fault: Fault)
    | Claim(tid: nat, proposed: Key, fault: Fault)
    | CallBank(tid: nat)
    | BankHandles(request: PayRequest, bankRef: string, ts: real)
    | BankCallEnds(tid: nat, result: Bank.PayResult)
    | MarkPaid(tid: nat, fault: Fault)
    | Ack(tid: nat, fault: Fault)
    | FailJob(tid: nat, due: real, fault: Fault)
    | Lose(tids: set<nat>)             // a crash loses every task of a worker, a dead thread or cancelled future one
    | SeeLeaseGone(rescuer: WorkerId, owner: WorkerId)
    | Recover(rescuer: WorkerId, owner: WorkerId)
    | PromoteDue(now: real, batch: seq<Raw>)

  /** The job the API pushes for a fresh payout. */
  function FirstJob(pid: nat, row: Payout, requestId: Option<string>, at: real): Job {
    Job(pid, row.merchantId, row.amountMinor, row.currency, requestId, at, 0, None)
  }

  predicate At(s: State, tid: nat) {
    tid in s.tasks && s.tasks[tid].raw.JobText?
  }

  ghost predicate Enabled(s: State, a: Action) {
    match a
    case CreateSettlement(sid, _, _, _, _) => sid !in s.db.settlements
    case CommitExecute(_, pid, _, _) => pid !in s.db.payouts
    case PushJob(pid) => pid in s.unsent
    case ApiDies(pid) => true
    case PushJunk(_) => true
    case Heartbeat(_) => true
    case LeaseEnds(_) => true
    case FetchJob(_, tid) => s.redis.jobs != [] && tid !in s.tasks
    case DiscardJunk(tid, _) => tid in s.tasks && s.tasks[tid].raw.Malformed?
    case Claim(tid, _, _) => At(s, tid) && s.tasks[tid].pc == Fetched
    case CallBank(tid) => At(s, tid) && s.tasks[tid].pc.Holding?
    case BankHandles(q, _, _) => q in s.sent
    case BankCallEnds(tid, r) =>
      At(s, tid) && s.tasks[tid].pc.Calling? &&
      (r.Ok? ==> (s.tasks[tid].pc.request, r.bankRef) in s.replies)
    case MarkPaid(tid, _) => At(s, tid) && s.tasks[tid].pc.Replied?
    case Ack(tid, _) => At(s, tid) && s.tasks[tid].pc == Acking
    case FailJob(tid, _, _) => At(s, tid) && s.tasks[tid].pc.Failing?
    case Lose(_) => true
    case SeeLeaseGone(rescuer, owner) => rescuer != owner && owner !in s.redis.leases
    case Recover(rescuer, owner) => (rescuer, owner) in s.recovering && Held(s.redis, owner) != []
    case PromoteDue(now, batch) => IsDueBatch(s.redis.retry, now, PROMOTE_LIMIT, batch)
  }

  function AtPc(s: State, tid: nat, pc: Pc): State
    requires tid in s.tasks
  {
    s.(tasks := s.tasks[tid := s.tasks[tid].(pc := pc)])
  }

  function Step(s: State, a: Action): State
    requires Enabled(s, a)
  {
    match a
    case CreateSettlement(sid, m, date, amount, currency) =>
      s.(db := CreateTx(s.db, sid, m, date, amount, currency))
    case CommitExecute(sid, pid, requestId, at) => StepCommit(s, sid, pid, requestId, at)
    case PushJob(pid) =>
      s.(redis := PushJobs(s.redis, JobText(s.unsent[pid])), unsent := s.unsent - {pid}, pushed := s.pushed + {pid})
    case ApiDies(pid) => s.(unsent := s.unsent - {pid})
    case PushJunk(text) => s.(redis := PushJobs(s.redis, Malformed(text)))
    case Heartbeat(w) => s.(redis := s.redis.(leases := s.redis.leases + {w}))
    case LeaseEnds(w) => s.(redis := s.redis.(leases := s.redis.leases - {w}))
    case FetchJob(w, tid) => StepFetch(s, w, tid)
    case DiscardJunk(tid, fault) => StepJunk(s, tid, fault)
    case Claim(tid, proposed, fault) => StepClaim(s, tid, proposed, fault)
    case CallBank(tid) => StepCall(s, tid)
    case BankHandles(q, ref, ts) => StepBank(s, q, ref, ts)
    case BankCallEnds(tid, r) => AtPc(s, tid, AfterPay(r))
    case MarkPaid(tid, fault) => StepMark(s, tid, fault)
    case Ack(tid, fault) => StepAck(s, tid, fault)
    case FailJob(tid, due, fault) => StepFail(s, tid, due, fault)
    case Lose(tids) => s.(tasks := s.tasks - tids)
    case SeeLeaseGone(rescuer, owner) => s.(recovering := s.recovering + {(rescuer, owner)})
    case Recover(_, owner) => s.(redis := MoveBack(s.redis, owner))
    case PromoteDue(_, batch) => s.(redis := Promote(s.redis, batch))
  }

  function StepCommit(s: State, sid: nat, pid: nat, requestId: Option<string>, at: real): State {
    var (db, row) := ExecuteTx(s.db, sid, pid);
    if row == None then s
    else s.(db := db, unsent := s.unsent[pid := FirstJob(pid, row.value, requestId, at)])
  }

  function StepFetch(s: State, w: WorkerId, tid: nat): State
    requires s.redis.jobs != []
  {
    var raw := s.redis.jobs[|s.redis.jobs| - 1];
    s.(redis := Fetch(s.redis, w), tasks := s.tasks[tid := Task(w, raw, Fetched)])
  }

  function StepJunk(s: State, tid: nat, fault: Fault): State
    requires tid in s.tasks
  {
    var t := s.tasks[tid];
    s.(redis := Committed(fault, s.redis, DeadLetter(s.redis, t.worker, t.raw, t.raw)), tasks := s.tasks - {tid})
  }

  function StepClaim(s: State, tid: nat, proposed: Key, fault: Fault): State
    requires At(s, tid)
  {
    var (db, r) := ClaimTx(s.db, s.tasks[tid].raw.job.payoutId, proposed);
    AtPc(s, tid, AfterClaim(r, fault)).(db := Committed(fault, s.db, db))
  }

  function StepCall(s: State, tid: nat): State
    requires At(s, tid) && s.tasks[tid].pc.Holding?
  {
    var q := RequestFor(s.tasks[tid].raw.job, s.tasks[tid].pc.key);
    AtPc(s, tid, Calling(q)).(sent := s.sent + {q})
  }

  function StepBank(s: State, q: PayRequest, ref: string, ts: real): State {
    var (books, entry, _) := Bank.Post(s.books, q.body, Some(q.key), ref, ts);
    s.(books := books, replies := s.replies + {(q, entry.bankRef)})
  }

  function StepMark(s: State, tid: nat, fault: Fault): State
    requires At(s, tid) && s.tasks[tid].pc.Replied?
  {
    var db := MarkPaidTx(s.db, s.tasks[tid].raw.job.payoutId, s.tasks[tid].pc.bankRef);
    AtPc(s, tid, AfterMark(fault)).(db := Committed(fault, s.db, db))
  }

  function StepAck(s: State, tid: nat, fault: Fault): State
    requires At(s, tid)
  {
    var t := s.tasks[tid];
    var redis := Committed(fault, s.redis, Release(s.redis, t.worker, t.raw));
    if fault == Works then s.(redis := redis, tasks := s.tasks - {tid})
    else AtPc(s, tid, Failing(StoreFailure(fault.error))).(redis := redis)
  }

  function StepFail(s: State, tid: nat, due: real, fault: Fault): State
    requires At(s, tid) && s.tasks[tid].pc.Failing?
  {
    var t := s.tasks[tid];
    var redis := RetryOrDead(s.redis, t.worker, t.raw.job, t.pc.failure, s.maxAttempts, due);
    s.(redis := Committed(fault, s.redis, redis), tasks := s.tasks - {tid})
  }

  /* ---- runs ---- */

  ghost predicate IsRun(s: State, actions: seq<Action>)
    decreases |actions|
  {
    actions == [] || (Enabled(s, actions[0]) && IsRun(Step(s, actions[0]), actions[1..]))
  }

  ghost function After(s: State, actions: seq<Action>): State
    requires IsRun(s, actions)
    decreases |actions|
  {
    if actions == [] then s else After(Step(s, actions[0]), actions[1..])
  }

  ghost predicate Reachable(s: State, maxAttempts: int) {
    exists actions :: IsRun(Init(maxAttempts), actions) && After(Init(maxAttempts), actions) == s
  }
}
