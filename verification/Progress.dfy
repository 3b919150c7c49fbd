/** The service cannot work for ever without new work: a measure over jobs and running deliveries
    drops with every step of a worker. */
module Progress {
  import opened Common
  import Bank
  import opened Tables
  import opened Queues
  import opened Delivery
  import opened Protocol

  /** Attempts left times 16, then the place: RETRY over JOBS over a running delivery, and the
      delivery's own progress. A copy in a processing list or in DEAD asks for no work. */
  function Left(raw: Raw, maxAttempts: int): nat {
    if raw.JobText? && raw.job.attempt < maxAttempts then maxAttempts - raw.job.attempt else 0
  }

  function RetryWork(raw: Raw, maxAttempts: int): nat {
    16 * Left(raw, maxAttempts) + 15
  }

  function JobWork(raw: Raw, maxAttempts: int): nat {
    16 * Left(raw, maxAttempts) + 14
  }

  function PcRank(pc: Pc): nat {
    match pc
    case Fetched => 6
    case Holding(_) => 5
    case Calling(_) => 4
    case Replied(_) => 3
    case Acking => 2
    case Failing(_) => 1
  }

  function TaskWork(t: Task, maxAttempts: int): nat {
    16 * Left(t.raw, maxAttempts) + PcRank(t.pc)
  }

  ghost function JobsWork(jobs: seq<Raw>, maxAttempts: int): nat {
    if jobs == [] then 0
    else JobsWork(jobs[..|jobs| - 1], maxAttempts) + JobWork(jobs[|jobs| - 1], maxAttempts)
  }

  ghost function RetryWorks(retry: map<Raw, real>, maxAttempts: int): map<Raw, int> {
    map raw | raw in retry :: RetryWork(raw, maxAttempts)
  }

  ghost function TaskWorks(tasks: map<nat, Task>, maxAttempts: int): map<nat, int> {
    map t | t in tasks :: TaskWork(tasks[t], maxAttempts)
  }

  /** What waits in Redis. */
  ghost function Waiting(r: Redis, maxAttempts: int): int {
    Waiting'(r.retry, r.jobs, maxAttempts)
  }

  ghost function Waiting'(retry: map<Raw, real>, jobs: seq<Raw>, maxAttempts: int): int {
    JobsWork(jobs, maxAttempts) + MapSum(RetryWorks(retry, maxAttempts))
  }

  ghost function Work(s: State): int {
    Waiting(s.redis, s.maxAttempts) + MapSum(TaskWorks(s.tasks, s.maxAttempts))
  }

  lemma {:induction false} WorkNonNegative(s: State)
    ensures Work(s) >= 0
  {
    MapSumMonotone(map[], RetryWorks(s.redis.retry, s.maxAttempts));
    MapSumMonotone(map[], TaskWorks(s.tasks, s.maxAttempts));
  }

  /** The steps of worker threads and of promotion. */
  predicate IsWork(s: State, a: Action) {
    match a
    case FetchJob(_, _) => true
    case DiscardJunk(_, _) => true
    case Claim(_, _, _) => true
    case CallBank(_) => true
    case BankCallEnds(_, _) => true
    case MarkPaid(_, _) => true
    case Ack(_, _) => true
    case FailJob(_, _, _) => true
    case Lose(tids) => tids * s.tasks.Keys != {}
    case PromoteDue(_, batch) => batch != []
    case _ => false
  }

  /** The only steps that bring new work: a first push, foreign text, a recovery. */
  predicate BringsWork(a: Action) {
    a.PushJob? || a.PushJunk? || a.Recover?
  }

  /* ---- pieces ---- */

  lemma {:induction false} TaskMoves(s: State, tid: nat, pc: Pc)
    requires tid in s.tasks
    ensures MapSum(TaskWorks(AtPc(s, tid, pc).tasks, s.maxAttempts)) ==
            MapSum(TaskWorks(s.tasks, s.maxAttempts)) - PcRank(s.tasks[tid].pc) + PcRank(pc)
  {
    var t := s.tasks[tid].(pc := pc);
    MapSumUpdate(TaskWorks(s.tasks, s.maxAttempts), tid, TaskWork(t, s.maxAttempts));
    assert TaskWorks(s.tasks[tid := t], s.maxAttempts) ==
           TaskWorks(s.tasks, s.maxAttempts)[tid := TaskWork(t, s.maxAttempts)];
  }

  lemma {:induction false} TaskEnds(tasks: map<nat, Task>, tid: nat, maxAttempts: int)
    requires tid in tasks
    ensures MapSum(TaskWorks(tasks - {tid}, maxAttempts)) ==
            MapSum(TaskWorks(tasks, maxAttempts)) - TaskWork(tasks[tid], maxAttempts)
  {
    MapSumRemove(TaskWorks(tasks, maxAttempts), tid);
    assert TaskWorks(tasks - {tid}, maxAttempts) == TaskWorks(tasks, maxAttempts) - {tid};
  }

  lemma {:induction false} TasksLost(tasks: map<nat, Task>, tids: set<nat>, maxAttempts: int)
    ensures MapSum(TaskWorks(tasks - tids, maxAttempts)) <= MapSum(TaskWorks(tasks, maxAttempts))
    ensures tids * tasks.Keys != {} ==>
              MapSum(TaskWorks(tasks - tids, maxAttempts)) < MapSum(TaskWorks(tasks, maxAttempts))
  {
    MapSumMonotone(TaskWorks(tasks - tids, maxAttempts), TaskWorks(tasks, maxAttempts));
    if tids * tasks.Keys != {} {
      var t :| t in tids * tasks.Keys;
      TaskEnds(tasks, t, maxAttempts);
      MapSumMonotone(TaskWorks(tasks - tids, maxAttempts), TaskWorks(tasks - {t}, maxAttempts));
    }
  }

  lemma {:induction false} TaskStarts(tasks: map<nat, Task>, tid: nat, t: Task, maxAttempts: int)
    requires tid !in tasks
    ensures MapSum(TaskWorks(tasks[tid := t], maxAttempts)) ==
            MapSum(TaskWorks(tasks, maxAttempts)) + TaskWork(t, maxAttempts)
  {
    MapSumUpdate(TaskWorks(tasks, maxAttempts), tid, TaskWork(t, maxAttempts));
    assert TaskWorks(tasks[tid := t], maxAttempts) == TaskWorks(tasks, maxAttempts)[tid := TaskWork(t, maxAttempts)];
  }

  lemma {:induction false} RetryAdds(retry: map<Raw, real>, raw: Raw, due: real, maxAttempts: int)
    ensures MapSum(RetryWorks(retry[raw := due], maxAttempts)) <=
            MapSum(RetryWorks(retry, maxAttempts)) + RetryWork(raw, maxAttempts)
  {
    MapSumUpdate(RetryWorks(retry, maxAttempts), raw, RetryWork(raw, maxAttempts));
    assert RetryWorks(retry[raw := due], maxAttempts) ==
           RetryWorks(retry, maxAttempts)[raw := RetryWork(raw, maxAttempts)];
  }

  ghost predicate DistinctMembers(retry: map<Raw, real>, batch: seq<Raw>) {
    && (forall i :: 0 <= i < |batch| ==> batch[i] in retry)
    && (forall i, j :: 0 <= i < j < |batch| ==> batch[i] != batch[j])
  }

  lemma LastMember(retry: map<Raw, real>, batch: seq<Raw>)
    requires batch != [] && DistinctMembers(retry, batch)
    ensures var n := |batch| - 1;
            && DistinctMembers(retry, batch[..n])
            && batch[n] in retry - AsSet(batch[..n])
            && (retry - AsSet(batch[..n])) - {batch[n]} == retry - AsSet(batch)
  {
  }

  lemma {:induction false} PromotionDrops(retry: map<Raw, real>, jobs: seq<Raw>, batch: seq<Raw>, maxAttempts: int)
    requires DistinctMembers(retry, batch)
    ensures Waiting'(retry - AsSet(batch), jobs + batch, maxAttempts) == Waiting'(retry, jobs, maxAttempts) - |batch|
  {
    if batch == [] {
      assert retry - AsSet(batch) == retry && jobs + batch == jobs;
    } else {
      hide DistinctMembers, AsSet, Waiting';
      var n := |batch| - 1;
      var init, m := batch[..n], batch[n];
      LastMember(retry, batch);
      PromotionDrops(retry, jobs, init, maxAttempts);
      OnePromoted(retry - AsSet(init), jobs + init, m, maxAttempts);
      assert (jobs + init) + [m] == jobs + batch;
    }
  }

  lemma {:induction false} OnePromoted(retry: map<Raw, real>, jobs: seq<Raw>, m: Raw, maxAttempts: int)
    requires m in retry
    ensures Waiting'(retry - {m}, jobs + [m], maxAttempts) == Waiting'(retry, jobs, maxAttempts) - 1
  {
    MapSumRemove(RetryWorks(retry, maxAttempts), m);
    assert RetryWorks(retry - {m}, maxAttempts) == RetryWorks(retry, maxAttempts) - {m};
    assert (jobs + [m])[..|jobs + [m]| - 1] == jobs;
  }

  /* ---- the theorem ---- */

  lemma {:induction false} FetchDrops(s: State, w: WorkerId, tid: nat)
    requires Enabled(s, FetchJob(w, tid))
    ensures Work(StepFetch(s, w, tid)) < Work(s)
  {
    TaskStarts(s.tasks, tid, Task(w, s.redis.jobs[|s.redis.jobs| - 1], Fetched), s.maxAttempts);
  }

  lemma {:induction false} ReleaseKeepsWaiting(r: Redis, w: WorkerId, raw: Raw, maxAttempts: int)
    ensures Waiting(Release(r, w, raw), maxAttempts) == Waiting(r, maxAttempts)
  {
    hide RemoveFirst, RetryWorks, JobsWork, MapSum;
  }

  lemma {:induction false} FailingWaiting(r: Redis, w: WorkerId, job: Job, f: Failure, maxAttempts: int, due: real)
    ensures Waiting(RetryOrDead(r, w, job, f, maxAttempts, due), maxAttempts) <=
            Waiting(r, maxAttempts) + 16 * Left(JobText(job), maxAttempts)
  {
    var raw, again := JobText(job), JobText(Again(job, f));
    if GoesToRetry(job, f, maxAttempts) {
      var added := r.(retry := r.retry[again := due]);
      ReleaseKeepsWaiting(added, w, raw, maxAttempts);
      hide Release;
      RetryAdds(r.retry, again, due, maxAttempts);
      assert RetryWork(again, maxAttempts) < 16 * Left(raw, maxAttempts);
    } else {
      var added := r.(dead := [again] + r.dead);
      ReleaseKeepsWaiting(added, w, raw, maxAttempts);
    }
  }

  /** A delivery that ends and leaves in Redis at most the work its attempts had left. */
  lemma EndDrops(s: State, s': State, tid: nat)
    requires tid in s.tasks && s'.tasks == s.tasks - {tid} && s'.maxAttempts == s.maxAttempts
    requires Waiting(s'.redis, s.maxAttempts) <=
             Waiting(s.redis, s.maxAttempts) + 16 * Left(s.tasks[tid].raw, s.maxAttempts)
    ensures Work(s') < Work(s)
  {
    hide Waiting, MapSum, TaskWorks, Left;
    TaskEnds(s.tasks, tid, s.maxAttempts);
  }

  lemma FailDrops(s: State, tid: nat, due: real, fault: Fault)
    requires At(s, tid) && s.tasks[tid].pc.Failing?
    ensures Work(StepFail(s, tid, due, fault)) < Work(s)
  {
    var t := s.tasks[tid];
    hide RetryOrDead, Waiting, MapSum, TaskWorks, Left, Work;
    FailingWaiting(s.redis, t.worker, t.raw.job, t.pc.failure, s.maxAttempts, due);
    EndDrops(s, StepFail(s, tid, due, fault), tid);
  }

  lemma {:induction false} AckDrops(s: State, tid: nat, fault: Fault)
    requires At(s, tid) && s.tasks[tid].pc == Acking
    ensures Work(StepAck(s, tid, fault)) < Work(s)
  {
    var s' := StepAck(s, tid, fault);
    var r' := Release(s.redis, s.tasks[tid].worker, s.tasks[tid].raw);
    ReleaseKeepsWaiting(s.redis, s.tasks[tid].worker, s.tasks[tid].raw, s.maxAttempts);
    assert s'.redis == Committed(fault, s.redis, r');
    hide Release, Waiting, MapSum;
    assert Waiting(s'.redis, s.maxAttempts) == Waiting(s.redis, s.maxAttempts);
    if fault == Works {
      TaskEnds(s.tasks, tid, s.maxAttempts);
    } else {
      TaskMoves(s, tid, Failing(StoreFailure(fault.error)));
    }
  }

  lemma DeadLetterWaiting(r: Redis, w: WorkerId, raw: Raw, letter: Raw, maxAttempts: int)
    ensures Waiting(DeadLetter(r, w, raw, letter), maxAttempts) == Waiting(r, maxAttempts)
  {
    hide Release;
    ReleaseKeepsWaiting(r.(dead := [letter] + r.dead), w, raw, maxAttempts);
  }

  lemma JunkDrops(s: State, tid: nat, fault: Fault)
    requires Enabled(s, DiscardJunk(tid, fault))
    ensures Work(StepJunk(s, tid, fault)) < Work(s)
  {
    var t := s.tasks[tid];
    hide DeadLetter, Waiting, MapSum, TaskWorks, Left, Work;
    DeadLetterWaiting(s.redis, t.worker, t.raw, t.raw, s.maxAttempts);
    EndDrops(s, StepJunk(s, tid, fault), tid);
  }

  lemma PromoteDrops(s: State, now: real, batch: seq<Raw>)
    requires Enabled(s, PromoteDue(now, batch))
    ensures Work(Step(s, PromoteDue(now, batch))) == Work(s) - |batch|
  {
    PromotionDrops(s.redis.retry, s.redis.jobs, batch, s.maxAttempts);
  }

  lemma LoseDrops(s: State, tids: set<nat>)
    ensures Work(Step(s, Lose(tids))) <= Work(s)
    ensures tids * s.tasks.Keys != {} ==> Work(Step(s, Lose(tids))) < Work(s)
    ensures tids * s.tasks.Keys == {} ==> Work(Step(s, Lose(tids))) == Work(s)
  {
    TasksLost(s.tasks, tids, s.maxAttempts);
    if tids * s.tasks.Keys == {} {
      assert forall t :: t in s.tasks ==> t !in tids * s.tasks.Keys;
      assert s.tasks - tids == s.tasks;
    }
  }

  /** A thread that moves on without touching Redis. */
  lemma MoveDrops(s: State, s': State, tid: nat, pc: Pc)
    requires tid in s.tasks && s'.tasks == AtPc(s, tid, pc).tasks
    requires s'.redis == s.redis && s'.maxAttempts == s.maxAttempts
    requires PcRank(pc) < PcRank(s.tasks[tid].pc)
    ensures Work(s') < Work(s)
  {
    TaskMoves(s, tid, pc);
  }

  /** The steps of a delivery that talk to the database or the bank. */
  lemma TalkDrops(s: State, a: Action)
    requires Enabled(s, a) && (a.Claim? || a.CallBank? || a.BankCallEnds? || a.MarkPaid?)
    ensures Work(Step(s, a)) < Work(s)
  {
    hide Work, ClaimTx, MarkPaidTx;
    MoveDrops(s, Step(s, a), a.tid, Step(s, a).tasks[a.tid].pc);
  }

  lemma UntouchedWork(s: State, a: Action)
    requires Enabled(s, a) && !IsWork(s, a) && !BringsWork(a) && !a.Lose? && !a.PromoteDue?
    ensures Work(Step(s, a)) == Work(s)
  {
    hide MapSum, TaskWorks, RetryWorks, JobsWork, ExecuteTx, CreateTx, Bank.Post;
  }

  /** Every step of a worker thread or of promotion does work off; only a first push, foreign
      text or a recovery brings work; every other step leaves the amount as it is. */
  lemma WorkDrops(s: State, a: Action)
    requires Enabled(s, a)
    ensures IsWork(s, a) ==> Work(Step(s, a)) < Work(s)
    ensures !IsWork(s, a) && !BringsWork(a) ==> Work(Step(s, a)) == Work(s)
  {
    hide Work, StepFetch, StepJunk, StepClaim, StepCall, StepBank, StepMark, StepAck, StepFail, StepCommit;
    hide IsDueBatch, Promote;
    match a {
      case FetchJob(w, tid) => FetchDrops(s, w, tid);
      case DiscardJunk(tid, fault) => JunkDrops(s, tid, fault);
      case Claim(tid, _, _) => TalkDrops(s, a);
      case CallBank(tid) => TalkDrops(s, a);
      case BankCallEnds(tid, _) => TalkDrops(s, a);
      case MarkPaid(tid, _) => TalkDrops(s, a);
      case Ack(tid, fault) => AckDrops(s, tid, fault);
      case FailJob(tid, due, fault) => FailDrops(s, tid, due, fault);
      case Lose(tids) => LoseDrops(s, tids);
      case PromoteDue(now, batch) => PromoteDrops(s, now, batch);
      case _ => if !BringsWork(a) { UntouchedWork(s, a); }
    }
  }

  ghost function WorkSteps(s: State, actions: seq<Action>): nat
    requires IsRun(s, actions)
    decreases |actions|
  {
    if actions == [] then 0
    else (if IsWork(s, actions[0]) then 1 else 0) + WorkSteps(Step(s, actions[0]), actions[1..])
  }

  /** Without new work, a run contains at most Work(s) worker steps, however it is interleaved
      and whatever fails. */
  lemma {:induction false} WorkIsBounded(s: State, actions: seq<Action>)
    requires IsRun(s, actions)
    requires forall a :: a in actions ==> !BringsWork(a)
    ensures WorkSteps(s, actions) + Work(After(s, actions)) <= Work(s)
    ensures WorkSteps(s, actions) <= Work(s)
    decreases |actions|
  {
    if actions == [] {
      WorkNonNegative(s);
    } else {
      assert actions[0] in actions;
      WorkDrops(s, actions[0]);
      WorkIsBounded(Step(s, actions[0]), actions[1..]);
      WorkNonNegative(After(s, actions));
    }
  }
}
