/** Where the jobs a worker fetched have gone: the account behind a clean shutdown
    (app/settle/worker.py, _drain). */
module Shutdown {
  import opened Common
  import opened Tables
  import opened Queues
  import opened Delivery
  import opened Protocol
  import opened Invariants
  import opened Preservation

  /** How a text leaves a processing list. */
  datatype Fate = Acked | PutAside | TakenBack

  /** The text worker w's list gains or loses in one step. */
  ghost function Gains(s: State, a: Action, w: WorkerId): multiset<Raw>
    requires Enabled(s, a)
  {
    if a.FetchJob? && a.worker == w then multiset{s.redis.jobs[|s.redis.jobs| - 1]} else multiset{}
  }

  ghost function Loses(s: State, a: Action, w: WorkerId, fate: Fate): multiset<Raw>
    requires Enabled(s, a)
  {
    match a
    case Ack(tid, fault) => if fate == Acked then Released(s, tid, w, fault) else multiset{}
    case FailJob(tid, _, fault) => if fate == PutAside then Released(s, tid, w, fault) else multiset{}
    case DiscardJunk(tid, fault) => if fate == PutAside then Released(s, tid, w, fault) else multiset{}
    case Recover(_, owner) =>
      if fate == TakenBack && owner == w then multiset{Held(s.redis, w)[|Held(s.redis, w)| - 1]} else multiset{}
    case _ => multiset{}
  }

  /** LREM takes a copy only if one is there: after a recovery it may find nothing. */
  ghost function Released(s: State, tid: nat, w: WorkerId, fault: Fault): multiset<Raw>
    requires tid in s.tasks
  {
    var t := s.tasks[tid];
    if t.worker == w && !fault.FailsBefore? && t.raw in Held(s.redis, w) then multiset{t.raw} else multiset{}
  }

  lemma ReleaseAccount(r: Redis, v: WorkerId, w: WorkerId, raw: Raw)
    ensures multiset(Held(Release(r, v, raw), w)) +
            (if v == w && raw in Held(r, w) then multiset{raw} else multiset{}) == multiset(Held(r, w))
  {
    assert raw in Held(r, w) <==> raw in multiset(Held(r, w));
  }

  lemma MoveBackAccount(r: Redis, owner: WorkerId, w: WorkerId)
    requires Held(r, owner) != []
    ensures multiset(Held(MoveBack(r, owner), w)) +
            (if owner == w then multiset{Held(r, w)[|Held(r, w)| - 1]} else multiset{}) == multiset(Held(r, w))
  {
    var list := Held(r, owner);
    assert list == list[..|list| - 1] + [list[|list| - 1]];
  }

  /** One step balances worker w's list. */
  ghost predicate Balanced(s: State, a: Action, w: WorkerId)
    requires Enabled(s, a)
  {
    multiset(Held(Step(s, a).redis, w)) + AllLosses(s, a, w) == multiset(Held(s.redis, w)) + Gains(s, a, w)
  }

  ghost function AllLosses(s: State, a: Action, w: WorkerId): multiset<Raw>
    requires Enabled(s, a)
  {
    Loses(s, a, w, Acked) + Loses(s, a, w, PutAside) + Loses(s, a, w, TakenBack)
  }

  lemma StepAccount(s: State, a: Action, w: WorkerId)
    requires Enabled(s, a)
    ensures Balanced(s, a, w)
  {
    hide Balanced;
    match a {
      case Ack(_, _) => AckAccount(s, a, w);
      case FailJob(_, _, _) => FailAccount(s, a, w);
      case DiscardJunk(_, _) => JunkAccount(s, a, w);
      case Recover(_, _) => RecoverAccount(s, a, w);
      case _ => OtherAccount(s, a, w);
    }
  }

  /** A step that may release one text, and otherwise changes no processing list. */
  lemma ReleaseStep(s: State, a: Action, w: WorkerId, added: Redis)
    requires Enabled(s, a) && (a.Ack? || a.FailJob? || a.DiscardJunk?) && a.tid in s.tasks
    requires added.processing == s.redis.processing
    requires Step(s, a).redis == Committed(a.fault, s.redis, Release(added, s.tasks[a.tid].worker, s.tasks[a.tid].raw))
    ensures Balanced(s, a, w)
  {
    hide Step, Enabled, AllLosses, Gains, Release;
    LossIsRelease(s, a, w);
    ReleaseAccount(added, s.tasks[a.tid].worker, w, s.tasks[a.tid].raw);
    assert Held(added, w) == Held(s.redis, w);
  }

  lemma LossIsRelease(s: State, a: Action, w: WorkerId)
    requires Enabled(s, a) && (a.Ack? || a.FailJob? || a.DiscardJunk?)
    ensures AllLosses(s, a, w) == Released(s, a.tid, w, a.fault)
    ensures Gains(s, a, w) == multiset{}
  {
    hide Released;
  }

  lemma AckAccount(s: State, a: Action, w: WorkerId)
    requires Enabled(s, a) && a.Ack?
    ensures Balanced(s, a, w)
  {
    hide Balanced, Release;
    ReleaseStep(s, a, w, s.redis);
  }

  lemma JunkAccount(s: State, a: Action, w: WorkerId)
    requires Enabled(s, a) && a.DiscardJunk?
    ensures Balanced(s, a, w)
  {
    hide Balanced;
    ReleaseStep(s, a, w, s.redis.(dead := [s.tasks[a.tid].raw] + s.redis.dead));
  }

  lemma FailAccount(s: State, a: Action, w: WorkerId)
    requires Enabled(s, a) && a.FailJob?
    ensures Balanced(s, a, w)
  {
    hide Balanced;
    var t := s.tasks[a.tid];
    var again := JobText(Again(t.raw.job, t.pc.failure));
    ReleaseStep(s, a, w, if GoesToRetry(t.raw.job, t.pc.failure, s.maxAttempts)
                         then s.redis.(retry := s.redis.retry[again := a.due])
                         else s.redis.(dead := [again] + s.redis.dead));
  }

  lemma RecoverAccount(s: State, a: Action, w: WorkerId)
    requires Enabled(s, a) && a.Recover?
    ensures Balanced(s, a, w)
  {
    MoveBackAccount(s.redis, a.owner, w);
    hide MoveBack;
  }

  lemma OtherAccount(s: State, a: Action, w: WorkerId)
    requires Enabled(s, a) && !a.Ack? && !a.FailJob? && !a.DiscardJunk? && !a.Recover?
    ensures Balanced(s, a, w)
  {
    assert AllLosses(s, a, w) == multiset{};
    if !a.FetchJob? {
      assert Held(Step(s, a).redis, w) == Held(s.redis, w);
    }
  }

  /* ---- whole runs ---- */

  ghost function Fetches(s: State, actions: seq<Action>, w: WorkerId): multiset<Raw>
    requires IsRun(s, actions)
    decreases |actions|
  {
    if actions == [] then multiset{}
    else Gains(s, actions[0], w) + Fetches(Step(s, actions[0]), actions[1..], w)
  }

  ghost function Departures(s: State, actions: seq<Action>, w: WorkerId, fate: Fate): multiset<Raw>
    requires IsRun(s, actions)
    decreases |actions|
  {
    if actions == [] then multiset{}
    else Loses(s, actions[0], w, fate) + Departures(Step(s, actions[0]), actions[1..], w, fate)
  }

  lemma AddUp(h0: multiset<Raw>, h1: multiset<Raw>, h2: multiset<Raw>, g: multiset<Raw>, g': multiset<Raw>,
              l: multiset<Raw>, l': multiset<Raw>)
    requires h1 + l == h0 + g && h2 + l' == h1 + g'
    ensures h2 + (l + l') == h0 + (g + g')
  {
    forall x
      ensures (h2 + (l + l'))[x] == (h0 + (g + g'))[x]
    {
      assert (h1 + l)[x] == (h0 + g)[x] && (h2 + l')[x] == (h1 + g')[x];
    }
  }

  ghost function AllDepartures(s: State, actions: seq<Action>, w: WorkerId): multiset<Raw>
    requires IsRun(s, actions)
  {
    Departures(s, actions, w, Acked) + Departures(s, actions, w, PutAside) + Departures(s, actions, w, TakenBack)
  }

  lemma {:induction false} RunAccount(s: State, actions: seq<Action>, w: WorkerId)
    requires IsRun(s, actions)
    ensures multiset(Held(After(s, actions).redis, w)) + AllDepartures(s, actions, w)
            == multiset(Held(s.redis, w)) + Fetches(s, actions, w)
    decreases |actions|
  {
    hide Gains, Loses, Step, Enabled;
    if actions != [] {
      var s1, rest := Step(s, actions[0]), actions[1..];
      StepAccount(s, actions[0], w);
      RunAccount(s1, rest, w);
      AddUp(multiset(Held(s.redis, w)), multiset(Held(s1.redis, w)), multiset(Held(After(s, actions).redis, w)),
            Gains(s, actions[0], w), Fetches(s1, rest, w), AllLosses(s, actions[0], w), AllDepartures(s1, rest, w));
      assert AllDepartures(s, actions, w) == AllLosses(s, actions[0], w) + AllDepartures(s1, rest, w);
    }
  }

  /** Every acknowledged text belongs to a payout that is paid. */
  lemma {:induction false} AckedArePaid(s: State, actions: seq<Action>, w: WorkerId, raw: Raw)
    requires Inv(s) && IsRun(s, actions) && raw in Departures(s, actions, w, Acked)
    ensures raw.JobText? && var p := raw.job.payoutId;
            p in After(s, actions).db.payouts && After(s, actions).db.payouts[p].state == Paid
    decreases |actions|
  {
    hide Inv;
    var a := actions[0];
    StepKeeps(s, a);
    if raw in Loses(s, a, w, Acked) {
      LoserIsPaid(s, a, w, raw);
      RunKeeps(Step(s, a), actions[1..]);
      assert RowGrows(s.db.payouts[raw.job.payoutId], Step(s, a).db.payouts[raw.job.payoutId]);
    } else {
      AckedArePaid(Step(s, a), actions[1..], w, raw);
    }
  }

  lemma LoserIsPaid(s: State, a: Action, w: WorkerId, raw: Raw)
    requires Inv(s) && Enabled(s, a) && raw in Loses(s, a, w, Acked)
    ensures raw.JobText? && raw.job.payoutId in s.db.payouts && s.db.payouts[raw.job.payoutId].state == Paid
  {
    assert TaskOk(s, s.tasks[a.tid]);
  }

  /** A text put aside is in RETRY or DEAD as soon as it leaves the list, as its next copy or, if
      it does not decode, as it is; a text taken back is in JOBS. */
  lemma DepartedIsKept(s: State, a: Action, w: WorkerId, raw: Raw)
    requires Enabled(s, a)
    ensures raw in Loses(s, a, w, TakenBack) ==> raw in Step(s, a).redis.jobs
    ensures raw in Loses(s, a, w, PutAside) ==>
              var r := Step(s, a).redis;
              (raw.Malformed? && raw in r.dead) ||
              (raw.JobText? && exists f ::
                 JobText(Again(raw.job, f)) in r.retry || JobText(Again(raw.job, f)) in r.dead)
  {
    if a.FailJob? && raw in Loses(s, a, w, PutAside) {
      var t := s.tasks[a.tid];
      assert t.raw == raw;
      var again := JobText(Again(t.raw.job, t.pc.failure));
      assert again in Step(s, a).redis.retry || again in Step(s, a).redis.dead;
    }
  }

  /** A clean shutdown: when worker w's list is empty, every text it ever fetched was either
      acknowledged for a paid payout, put aside in RETRY or DEAD, or taken back to JOBS, each copy
      exactly once. */
  lemma CleanShutdown(maxAttempts: int, actions: seq<Action>, w: WorkerId)
    requires IsRun(Init(maxAttempts), actions)
    ensures Held(After(Init(maxAttempts), actions).redis, w) == [] <==>
            Fetches(Init(maxAttempts), actions, w) == AllDepartures(Init(maxAttempts), actions, w)
    ensures forall raw :: raw in Departures(Init(maxAttempts), actions, w, Acked) ==>
              raw.JobText? && raw.job.payoutId in After(Init(maxAttempts), actions).db.payouts &&
              After(Init(maxAttempts), actions).db.payouts[raw.job.payoutId].state == Paid
  {
    hide *;
    RunAccount(Init(maxAttempts), actions, w);
    StartsEmpty(maxAttempts, w);
    NothingLeft(Held(After(Init(maxAttempts), actions).redis, w), AllDepartures(Init(maxAttempts), actions, w),
                Fetches(Init(maxAttempts), actions, w));
    InitInv(maxAttempts);
    forall raw | raw in Departures(Init(maxAttempts), actions, w, Acked)
      ensures raw.JobText? && raw.job.payoutId in After(Init(maxAttempts), actions).db.payouts
      ensures After(Init(maxAttempts), actions).db.payouts[raw.job.payoutId].state == Paid
    {
      AckedArePaid(Init(maxAttempts), actions, w, raw);
    }
  }

  lemma StartsEmpty(maxAttempts: int, w: WorkerId)
    ensures Held(Init(maxAttempts).redis, w) == []
  {
  }

  lemma NothingLeft(list: seq<Raw>, gone: multiset<Raw>, taken: multiset<Raw>)
    requires multiset(list) + gone == multiset([]) + taken
    ensures list == [] <==> taken == gone
  {
    assert taken == multiset(list) + gone;
    if list != [] {
      assert list[0] in multiset(list);
      assert taken[list[0]] > gone[list[0]];
    }
  }
}
