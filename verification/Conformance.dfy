/** The code of one thread, run through, is a run of the protocol: everything proved about all
    interleavings covers it. */
module Conformance {
  import opened Common
  import Bank
  import opened Tables
  import opened Queues
  import opened Delivery
  import opened Protocol
  import opened Outcome
  import opened Recovery

  lemma {:induction false} Extend(s: State, actions: seq<Action>, a: Action)
    requires IsRun(s, actions) && Enabled(After(s, actions), a)
    ensures IsRun(s, actions + [a]) && After(s, actions + [a]) == Step(After(s, actions), a)
    decreases |actions|
  {
    hide Step, Enabled;
    if actions == [] {
      assert ([] + [a])[1..] == [];
      assert actions + [a] == [a];
    } else {
      assert (actions + [a])[1..] == actions[1..] + [a];
      assert (actions + [a])[0] == actions[0];
      Extend(Step(s, actions[0]), actions[1..], a);
    }
  }

  /** The stores of two states agree, and the thread tid of the second stands at pc. */
  ghost predicate Stands(s: State, s': State, tid: nat, pc: Pc, db: Db, books: Bank.Books, redis: Redis) {
    && tid in s.tasks && s'.tasks == s.tasks[tid := s.tasks[tid].(pc := pc)]
    && s'.db == db && s'.books == books && s'.redis == redis
    && s'.maxAttempts == s.maxAttempts
  }

  /** handle is a run: claim, and if it holds the payout, call, bank, answer, mark. */
  lemma HandleIsARun(s: State, tid: nat, c: Calls) returns (actions: seq<Action>)
    requires At(s, tid) && s.tasks[tid].pc == Fetched
    ensures IsRun(s, actions)
    ensures var (db, books, pc) := Handled(s.db, s.books, s.tasks[tid].raw.job, c);
            Stands(s, After(s, actions), tid, pc, db, books, s.redis)
  {
    var job := s.tasks[tid].raw.job;
    actions := [Claim(tid, c.proposed, c.claim)];
    var s1 := Step(s, actions[0]);
    assert IsRun(s1, actions[1..]);
    assert After(s, actions) == s1;
    assert Handled(s.db, s.books, job, c) ==
           if s1.tasks[tid].pc.Holding? then HandledRest(s1.db, s.books, job, s1.tasks[tid].pc.key, c)
           else (s1.db, s.books, s1.tasks[tid].pc);
    if s1.tasks[tid].pc.Holding? {
      hide IsRun, After, Handled, HandledRest, ClaimTx;
      actions := PayIsARun(s, actions, tid, c);
    }
  }

  /** From the committed claim to the end of handle. */
  lemma PayIsARun(s: State, before: seq<Action>, tid: nat, c: Calls) returns (actions: seq<Action>)
    requires IsRun(s, before) && At(After(s, before), tid) && After(s, before).tasks[tid].pc.Holding?
    ensures IsRun(s, actions)
    ensures var s1 := After(s, before);
            var (db, books, pc) := HandledRest(s1.db, s1.books, s1.tasks[tid].raw.job, s1.tasks[tid].pc.key, c);
            Stands(s1, After(s, actions), tid, pc, db, books, s1.redis)
  {
    hide IsRun, After, MarkPaidTx, Bank.Post;
    var a2 := CallBank(tid);
    Extend(s, before, a2);
    actions := BankAnswers(s, before + [a2], tid, c);
    if After(s, actions).tasks[tid].pc.Replied? {
      var a4 := MarkPaid(tid, c.mark);
      Extend(s, actions, a4);
      actions := actions + [a4];
    }
  }

  ghost function HandledRest(db: Db, books: Bank.Books, job: Job, key: Key, c: Calls): (Db, Bank.Books, Pc) {
    var (books1, result) := BankCall(books, RequestFor(job, key), c);
    if !result.Ok? then (db, books1, AfterPay(result))
    else (Committed(c.mark, db, MarkPaidTx(db, job.payoutId, result.bankRef)), books1, AfterMark(c.mark))
  }

  /** From the request on the wire to the exception or the answer. */
  lemma BankAnswers(s: State, before: seq<Action>, tid: nat, c: Calls) returns (actions: seq<Action>)
    requires IsRun(s, before) && At(After(s, before), tid)
    requires var s2 := After(s, before); s2.tasks[tid].pc.Calling? && s2.tasks[tid].pc.request in s2.sent
    ensures IsRun(s, actions)
    ensures var s2, s3 := After(s, before), After(s, actions);
            var (books, result) := BankCall(s2.books, s2.tasks[tid].pc.request, c);
            Stands(s2, s3, tid, AfterPay(result), s2.db, books, s2.redis)
  {
    hide IsRun, After, Bank.Post;
    var s2 := After(s, before);
    var q := s2.tasks[tid].pc.request;
    var (_, result) := BankCall(s2.books, q, c);
    actions := before;
    if c.wire.ReplyLost? || c.wire.Answered? {
      var a := BankHandles(q, c.bankRef, c.ts);
      Extend(s, actions, a);
      actions := actions + [a];
    }
    var end := BankCallEnds(tid, result);
    Extend(s, actions, end);
    actions := actions + [end];
  }

  /** A delivery that failed ends in a retry or a dead letter. */
  lemma FailingIsARun(s: State, before: seq<Action>, tid: nat, due: real, fail: Fault) returns (actions: seq<Action>)
    requires IsRun(s, before) && At(After(s, before), tid) && After(s, before).tasks[tid].pc.Failing?
    ensures IsRun(s, actions)
    ensures var s1, s' := After(s, before), After(s, actions);
            var t := s1.tasks[tid];
            && s'.db == s1.db && s'.books == s1.books && s'.tasks == s1.tasks - {tid}
            && s'.redis == Committed(fail, s1.redis,
                                     RetryOrDead(s1.redis, t.worker, t.raw.job, t.pc.failure, s1.maxAttempts, due))
  {
    hide IsRun, After, RetryOrDead;
    var a := FailJob(tid, due, fail);
    Extend(s, before, a);
    actions := before + [a];
  }

  lemma AckIsARun(s: State, before: seq<Action>, tid: nat, ack: Fault) returns (actions: seq<Action>)
    requires IsRun(s, before) && At(After(s, before), tid) && After(s, before).tasks[tid].pc == Acking
    ensures IsRun(s, actions)
    ensures After(s, actions) == StepAck(After(s, before), tid, ack)
  {
    hide IsRun, After, Release;
    var a := Ack(tid, ack);
    Extend(s, before, a);
    actions := before + [a];
  }

  lemma RestIsARun(s: State, before: seq<Action>, tid: nat, config: Config, c: Calls) returns (actions: seq<Action>)
    requires IsRun(s, before) && At(After(s, before), tid) && After(s, before).maxAttempts == config.maxAttempts
    requires After(s, before).tasks[tid].pc == Acking || After(s, before).tasks[tid].pc.Failing?
    ensures IsRun(s, actions)
    ensures var s1, s' := After(s, before), After(s, actions);
            var t := s1.tasks[tid];
            && s'.db == s1.db && s'.books == s1.books && s'.tasks == s1.tasks - {tid}
            && s'.redis == Finished(s1.redis, t.worker, t.raw.job, t.pc, config, c)
  {
    hide IsRun, After, Release, RetryOrDead, Due;
    var s1 := After(s, before);
    var due := Due(config, s1.tasks[tid].raw.job, c);
    if s1.tasks[tid].pc.Failing? {
      actions := FailingIsARun(s, before, tid, due, c.fail);
    } else {
      actions := AckIsARun(s, before, tid, c.ack);
      if c.ack != Works {
        var s2 := After(s, actions);
        assert s2.tasks - {tid} == s1.tasks - {tid};
        actions := FailingIsARun(s, actions, tid, due, c.fail);
      }
    }
  }

  /** process is a run: handle, then the ack, or the retry or dead letter, whatever fails on the way. */
  lemma ProcessIsARun(s: State, tid: nat, config: Config, c: Calls) returns (actions: seq<Action>)
    requires At(s, tid) && s.tasks[tid].pc == Fetched && s.maxAttempts == config.maxAttempts
    ensures IsRun(s, actions)
    ensures var job, w := s.tasks[tid].raw.job, s.tasks[tid].worker;
            var (db, books, pc) := Handled(s.db, s.books, job, c);
            var s' := After(s, actions);
            && s'.db == db && s'.books == books
            && s'.redis == Finished(s.redis, w, job, pc, config, c)
            && s'.tasks == s.tasks - {tid}
  {
    hide IsRun, After, Handled, Finished;
    var before := HandleIsARun(s, tid, c);
    HandleEnds(s.db, s.books, s.tasks[tid].raw.job, c);
    actions := RestIsARun(s, before, tid, config, c);
    var pc := After(s, before).tasks[tid].pc;
    assert s.tasks[tid := s.tasks[tid].(pc := pc)] - {tid} == s.tasks - {tid};
  }

  lemma HandleEnds(db: Db, books: Bank.Books, job: Job, c: Calls)
    ensures var pc := Handled(db, books, job, c).2; pc == Acking || pc.Failing?
  {
  }

  /** The API call is a run: the commit, then the push unless it fails before reaching Redis. */
  lemma ExecuteIsARun(s: State, sid: nat, pid: nat, requestId: Option<string>, at: real, push: Fault)
    returns (actions: seq<Action>)
    requires pid !in s.db.payouts && pid !in s.unsent
    ensures IsRun(s, actions)
    ensures var (db, row) := ExecuteTx(s.db, sid, pid);
            var s' := After(s, actions);
            && s'.db == db && s'.books == s.books
            && s'.redis == (if row == None then s.redis
                            else Committed(push, s.redis,
                                           PushJobs(s.redis, JobText(FirstJob(pid, row.value, requestId, at)))))
            && s'.pushed == s.pushed + (if row.Some? && !push.FailsBefore? then {pid} else {})
            && s'.unsent == s.unsent
  {
    var a := CommitExecute(sid, pid, requestId, at);
    Extend(s, [], a);
    actions := [] + [a];
    var (db, row) := ExecuteTx(s.db, sid, pid);
    var s1 := Step(s, a);
    hide IsRun, After, ExecuteTx;
    if row.Some? {
      var b := if push.FailsBefore? then ApiDies(pid) else PushJob(pid);
      Extend(s, actions, b);
      actions := actions + [b];
      assert s1.unsent - {pid} == s.unsent;
    }
  }

  /* ---- recovery ---- */

  lemma MoveBackKeepsNonEmpty(r: Redis, owner: WorkerId)
    requires NoEmptyLists(r) && Held(r, owner) != []
    ensures NoEmptyLists(MoveBack(r, owner))
  {
  }

  /** Moving one text back first drains to the same. */
  lemma MoveBackThenDrain(r: Redis, owner: WorkerId)
    requires Held(r, owner) != []
    ensures Drained(MoveBack(r, owner), owner) == Drained(r, owner)
  {
    var list := Held(r, owner);
    var last := |list| - 1;
    assert Reverse(list) == [list[last]] + Reverse(list[..last]);
    assert (r.jobs + [list[last]]) + Reverse(list[..last]) == r.jobs + Reverse(list);
    hide Reverse;
    var m := MoveBack(r, owner);
    assert m.processing - {owner} == r.processing - {owner};
  }

  lemma DrainedNothing(r: Redis, owner: WorkerId)
    requires NoEmptyLists(r) && Held(r, owner) == []
    ensures Drained(r, owner) == r
  {
    WithHeldSame(r, owner);
    assert r.jobs + Reverse([]) == r.jobs;
  }

  /** Draining one owner's list is a run of single moves. */
  lemma {:induction false} DrainIsARun(s: State, before: seq<Action>, rescuer: WorkerId, owner: WorkerId)
    returns (actions: seq<Action>)
    requires IsRun(s, before) && (rescuer, owner) in After(s, before).recovering
    requires NoEmptyLists(After(s, before).redis)
    ensures IsRun(s, actions)
    ensures After(s, actions) == After(s, before).(redis := Drained(After(s, before).redis, owner))
    ensures NoEmptyLists(After(s, actions).redis)
    decreases |Held(After(s, before).redis, owner)|
  {
    hide IsRun, After, Drained, NoEmptyLists;
    var r := After(s, before).redis;
    if Held(r, owner) == [] {
      DrainedNothing(r, owner);
      actions := before;
    } else {
      var a := Recover(rescuer, owner);
      Extend(s, before, a);
      MoveBackKeepsNonEmpty(r, owner);
      MoveBackThenDrain(r, owner);
      assert |Held(MoveBack(r, owner), owner)| < |Held(r, owner)|;
      hide MoveBack, Held;
      actions := DrainIsARun(s, before + [a], rescuer, owner);
    }
  }

  /** recover_dead_workers is a run: a lease check and the moves, owner by owner. */
  lemma {:induction false} RecoveryIsARun(s: State, rescuer: WorkerId, keys: seq<WorkerId>)
    returns (actions: seq<Action>)
    requires NoEmptyLists(s.redis)
    ensures IsRun(s, actions)
    ensures var s' := After(s, actions);
            && s'.redis == Recovered(s.redis, rescuer, keys) && NoEmptyLists(s'.redis)
            && s'.db == s.db && s'.books == s.books && s'.tasks == s.tasks
    decreases |keys|
  {
    if keys == [] {
      RecoveredNothing(s.redis, rescuer);
      actions := [];
    } else {
      var n := |keys| - 1;
      actions := RecoveryIsARun(s, rescuer, keys[..n]);
      RecoveredLeases(s.redis, rescuer, keys[..n]);
      RecoveredOneMore(s.redis, rescuer, keys[..n], keys[n]);
      assert keys[..n] + [keys[n]] == keys;
      hide IsRun, After, Recovered, Drained, NoEmptyLists;
      if Dead(s.redis, rescuer, keys[n]) {
        var a := SeeLeaseGone(rescuer, keys[n]);
        Extend(s, actions, a);
        actions := DrainIsARun(s, actions + [a], rescuer, keys[n]);
      }
    }
  }
}
