/** The Redis side of the payout queue: the job lists, the retry zset, the leases, and the
    atomic commands the service issues on them (app/settle/queue.py, app/settle/worker.py). */
module Queues {
  import opened Common

  type WorkerId = string

  datatype Job = Job(payoutId: nat, merchantId: int, amountMinor: int, currency: string,
                     requestId: Option<string>, enqueuedAt: real, attempt: int, lastError: Option<string>)

  /** A list or zset member: the JSON text of a job, or text that does not decode. Two jobs have
      the same text exactly when they are equal. */
  datatype Raw = JobText(job: Job) | Malformed(text: string)

  /** Index 0 is the left end of a list. */
  datatype Redis = Redis(jobs: seq<Raw>, processing: map<WorkerId, seq<Raw>>, retry: map<Raw, real>,
                         dead: seq<Raw>, leases: set<WorkerId>)

  function Held(r: Redis, w: WorkerId): seq<Raw> {
    if w in r.processing then r.processing[w] else []
  }

  /** Redis deletes a list that becomes empty, so a worker that holds nothing has no key. */
  ghost predicate NoEmptyLists(r: Redis) {
    forall w :: w in r.processing ==> r.processing[w] != []
  }

  /** Redis with another list for worker w. */
  function WithHeld(r: Redis, w: WorkerId, list: seq<Raw>): (r': Redis)
    ensures Held(r', w) == list
    ensures forall v :: v != w ==> Held(r', v) == Held(r, v)
  {
    r.(processing := if list == [] then r.processing - {w} else r.processing[w := list])
  }

  lemma WithHeldSame(r: Redis, w: WorkerId)
    requires NoEmptyLists(r)
    ensures WithHeld(r, w, Held(r, w)) == r
  {
    if Held(r, w) == [] { assert r.processing - {w} == r.processing; }
  }

  /** Some list or the zset holds this text. */
  ghost predicate Holds(r: Redis, raw: Raw) {
    raw in r.jobs || raw in r.retry || raw in r.dead || exists w :: raw in Held(r, w)
  }

  /* ---- atomic commands ---- */

  /** LPUSH JOBS. */
  function PushJobs(r: Redis, raw: Raw): Redis {
    r.(jobs := [raw] + r.jobs)
  }

  /** BLMOVE JOBS processing RIGHT LEFT. */
  function Fetch(r: Redis, w: WorkerId): Redis
    requires r.jobs != []
  {
    var last := |r.jobs| - 1;
    WithHeld(r, w, [r.jobs[last]] + Held(r, w)).(jobs := r.jobs[..last])
  }

  /** LREM processing 1 raw. */
  function Release(r: Redis, w: WorkerId, raw: Raw): Redis {
    WithHeld(r, w, RemoveFirst(Held(r, w), raw))
  }

  /** MULTI; ZADD RETRY; LREM processing; EXEC. */
  function ScheduleRetry(r: Redis, w: WorkerId, raw: Raw, again: Raw, due: real): Redis {
    Release(r.(retry := r.retry[again := due]), w, raw)
  }

  /** MULTI; LPUSH DEAD; LREM processing; EXEC. */
  function DeadLetter(r: Redis, w: WorkerId, raw: Raw, letter: Raw): Redis {
    Release(r.(dead := [letter] + r.dead), w, raw)
  }

  /** LMOVE processing JOBS RIGHT RIGHT. */
  function MoveBack(r: Redis, owner: WorkerId): Redis
    requires Held(r, owner) != []
  {
    var last := |Held(r, owner)| - 1;
    WithHeld(r, owner, Held(r, owner)[..last]).(jobs := r.jobs + [Held(r, owner)[last]])
  }

  /* ---- promotion of due retries ---- */

  const PROMOTE_LIMIT: nat := 100

  /** What ZRANGEBYSCORE -inf now LIMIT 0 100 may answer: distinct due members in score order,
      and nothing due is left behind unless the batch is full of lower scores. */
  ghost predicate IsDueBatch(retry: map<Raw, real>, now: real, limit: nat, due: seq<Raw>) {
    && |due| <= limit
    && (forall i :: 0 <= i < |due| ==> due[i] in retry && retry[due[i]] <= now)
    && (forall i, j :: 0 <= i < j < |due| ==> due[i] != due[j] && retry[due[i]] <= retry[due[j]])
    && (forall m :: m in retry && retry[m] <= now && m !in due ==>
                      |due| == limit && forall i :: 0 <= i < |due| ==> retry[due[i]] <= retry[m])
  }

  function AsSet(s: seq<Raw>): (r: set<Raw>)
    ensures forall x :: x in r <==> x in s
  {
    set x | x in s
  }

  /** The PROMOTE_DUE script: each due member leaves RETRY and joins JOBS at the right. */
  function Promote(r: Redis, due: seq<Raw>): Redis {
    r.(retry := r.retry - AsSet(due), jobs := r.jobs + due)
  }

  lemma LowestDue(retry: map<Raw, real>, pool: set<Raw>) returns (m: Raw)
    requires pool != {} && pool <= retry.Keys
    ensures m in pool && forall x :: x in pool ==> retry[m] <= retry[x]
  {
    m :| m in pool;
    if pool != {m} {
      var n := LowestDue(retry, pool - {m});
      if retry[n] < retry[m] { m := n; }
      assert forall x :: x in pool ==> x in pool - {m} || retry[m] <= retry[x];
    }
  }

  class RedisServer {
    var jobs: seq<Raw>
    var processing: map<WorkerId, seq<Raw>>
    var retry: map<Raw, real>
    var dead: seq<Raw>
    var leases: set<WorkerId>

    function Value(): Redis
      reads this
    {
      Redis(jobs, processing, retry, dead, leases)
    }

    constructor ()
      ensures Value() == Redis([], map[], map[], [], {})
    {
      jobs, processing, retry, dead, leases := [], map[], map[], [], {};
    }

    method LPushJobs(raw: Raw)
      modifies this
      ensures Value() == PushJobs(old(Value()), raw)
      ensures jobs == [raw] + old(jobs)
    {
      jobs := [raw] + jobs;
    }

    method BLMove(w: WorkerId) returns (raw: Option<Raw>)
      modifies this
      ensures old(jobs) == [] ==> raw == None && Value() == old(Value())
      ensures old(jobs) != [] ==> raw == Some(old(jobs)[|old(jobs)| - 1]) && Value() == Fetch(old(Value()), w)
      ensures old(jobs) != [] ==>
                jobs == old(jobs)[..|old(jobs)| - 1] && Held(Value(), w) == [raw.value] + Held(old(Value()), w)
    {
      if jobs == [] {
        return None;
      }
      raw := Some(jobs[|jobs| - 1]);
      SetList(w, [raw.value] + Held(Value(), w));
      jobs := jobs[..|jobs| - 1];
    }

    method LMoveBack(owner: WorkerId) returns (moved: bool)
      modifies this
      ensures moved == (Held(old(Value()), owner) != [])
      ensures Value() == if moved then MoveBack(old(Value()), owner) else old(Value())
    {
      var list := Held(Value(), owner);
      if list == [] {
        return false;
      }
      jobs := jobs + [list[|list| - 1]];
      SetList(owner, list[..|list| - 1]);
      return true;
    }

    method LRem(w: WorkerId, raw: Raw)
      modifies this
      ensures Value() == Release(old(Value()), w, raw)
    {
      SetList(w, RemoveFirst(Held(Value(), w), raw));
    }

    method SetList(w: WorkerId, list: seq<Raw>)
      modifies this`processing
      ensures Value() == WithHeld(old(Value()), w, list)
    {
      processing := if list == [] then processing - {w} else processing[w := list];
    }

    /** The promotion script, member by member. */
    method PromoteDue(now: real) returns (moved: nat)
      modifies this
      ensures exists due :: IsDueBatch(old(retry), now, PROMOTE_LIMIT, due) && moved == |due| &&
                            Value() == Promote(old(Value()), due) &&
                            jobs == old(jobs) + due && retry == old(retry) - AsSet(due)
      ensures moved <= 100 && (moved < 100 ==> forall m :: m in retry ==> retry[m] > now)
    {
      var due := ZRangeByScore(now, PROMOTE_LIMIT);
      for i := 0 to |due|
        invariant Value() == Promote(old(Value()), due[..i])
      {
        retry := retry - {due[i]};
        jobs := jobs + [due[i]];
        assert due[..i + 1] == due[..i] + [due[i]];
      }
      assert due[..|due|] == due;
      moved := |due|;
    }

    /** Selects by repeated minimum. */
    method ZRangeByScore(now: real, limit: nat) returns (due: seq<Raw>)
      ensures IsDueBatch(retry, now, limit, due)
    {
      due := [];
      var pool := set m | m in retry && retry[m] <= now;
      while pool != {} && |due| < limit
        invariant pool == set m | m in retry && retry[m] <= now && m !in due
        invariant |due| <= limit
        invariant forall i :: 0 <= i < |due| ==> due[i] in retry && retry[due[i]] <= now
        invariant forall i, j :: 0 <= i < j < |due| ==> due[i] != due[j] && retry[due[i]] <= retry[due[j]]
        invariant forall i, m :: 0 <= i < |due| && m in pool ==> retry[due[i]] <= retry[m]
        decreases limit - |due|
      {
        ghost var lowest := LowestDue(retry, pool);
        var m :| m in pool && forall x :: x in pool ==> retry[m] <= retry[x];
        due := due + [m];
        pool := pool - {m};
      }
      assert forall m :: m in retry && retry[m] <= now && m !in due ==> m in pool;
    }
  }
}
