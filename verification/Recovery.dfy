/** The lists of workers whose lease has ended, moved back to JOBS (app/settle/worker.py,
    recover_dead_workers). */
module Recovery {
  import opened Common
  import opened Queues

  /* ---- recovery ---- */

  function Drained(r: Redis, owner: WorkerId): Redis {
    WithHeld(r, owner, []).(jobs := r.jobs + Reverse(Held(r, owner)))
  }

  predicate Dead(r: Redis, self: WorkerId, owner: WorkerId) {
    owner != self && owner !in r.leases
  }

  /** What recovery appends to JOBS: for each dead owner, at its first mention, its list reversed. */
  function Backlog(r: Redis, self: WorkerId, keys: seq<WorkerId>): seq<Raw> {
    if keys == [] then []
    else
      var n := |keys| - 1;
      Backlog(r, self, keys[..n]) +
      (if Dead(r, self, keys[n]) && keys[n] !in keys[..n] then Reverse(Held(r, keys[n])) else [])
  }

  /** The lists of the dead owners among `keys` are gone, all others are as they were, and JOBS has
      grown by the backlog. */
  function Recovered(r: Redis, self: WorkerId, keys: seq<WorkerId>): Redis {
    r.(processing := r.processing - (set k | k in keys && Dead(r, self, k)), jobs := r.jobs + Backlog(r, self, keys))
  }

  lemma RecoveredNothing(r: Redis, self: WorkerId)
    ensures Recovered(r, self, []) == r
  {
    assert r.processing - {} == r.processing;
  }

  lemma RecoveredLeases(r: Redis, self: WorkerId, keys: seq<WorkerId>)
    ensures Recovered(r, self, keys).leases == r.leases
  {
  }

  lemma BacklogOneMore(r: Redis, self: WorkerId, keys: seq<WorkerId>, owner: WorkerId)
    ensures Backlog(r, self, keys + [owner]) ==
            Backlog(r, self, keys) +
            (if Dead(r, self, owner) && owner !in keys then Reverse(Held(r, owner)) else [])
  {
    hide Reverse, Held, Dead;
    assert (keys + [owner])[..|keys|] == keys;
  }

  lemma RecoveredLists(r: Redis, self: WorkerId, keys: seq<WorkerId>, owner: WorkerId)
    ensures var before, after := Recovered(r, self, keys), Recovered(r, self, keys + [owner]);
            && Held(before, owner) == (if Dead(r, self, owner) && owner in keys then [] else Held(r, owner))
            && (Dead(r, self, owner) ==> after.processing == before.processing - {owner})
            && (!Dead(r, self, owner) ==> after.processing == before.processing)
  {
    hide Backlog;
    var before, after := Recovered(r, self, keys), Recovered(r, self, keys + [owner]);
    assert forall w :: w in keys + [owner] <==> w in keys || w == owner;
    hide Dead;
    if Dead(r, self, owner) {
      assert after.processing == before.processing - {owner};
    } else {
      assert after.processing == before.processing;
    }
  }

  lemma RecoveredOneMore(r: Redis, self: WorkerId, keys: seq<WorkerId>, owner: WorkerId)
    ensures Recovered(r, self, keys + [owner]) ==
            if Dead(r, self, owner) then Drained(Recovered(r, self, keys), owner) else Recovered(r, self, keys)
  {
    BacklogOneMore(r, self, keys, owner);
    RecoveredLists(r, self, keys, owner);
    hide Backlog, Dead, Held, Reverse;
    var before := Recovered(r, self, keys);
    var more := if Dead(r, self, owner) && owner !in keys then Reverse(Held(r, owner)) else [];
    assert r.jobs + (Backlog(r, self, keys) + more) == before.jobs + more;
    EmptyReversed();
    assert before.jobs + [] == before.jobs;
  }

  lemma EmptyReversed()
    ensures Reverse<Raw>([]) == []
  {
  }

  /* ---- the recovery law ---- */

  /** The lists of the owners, each read from its right end, one owner after the other. */
  function InOrder(r: Redis, owners: seq<WorkerId>): seq<Raw> {
    if owners == [] then []
    else InOrder(r, owners[..|owners| - 1]) + Reverse(Held(r, owners[|owners| - 1]))
  }

  /** All texts that the owners hold. */
  ghost function AllHeld(r: Redis, owners: seq<WorkerId>): multiset<Raw> {
    if owners == [] then multiset{}
    else AllHeld(r, owners[..|owners| - 1]) + multiset(Held(r, owners[|owners| - 1]))
  }

  /** `owners` are those of `keys`, each once, that are not `self` and hold no lease. All their texts,
      and no others, have moved behind the old JOBS, and their lists are empty; no other list, and
      nothing else, has changed. */
  ghost predicate Rescued(r: Redis, self: WorkerId, keys: seq<WorkerId>, owners: seq<WorkerId>, moved: nat, r': Redis) {
    && (forall i, j :: 0 <= i < j < |owners| ==> owners[i] != owners[j])
    && (forall w :: w in owners <==> w in keys && w != self && w !in r.leases)
    && r'.jobs == r.jobs + InOrder(r, owners) && moved == |InOrder(r, owners)|
    && multiset(r'.jobs) == multiset(r.jobs) + AllHeld(r, owners)
    && (forall w :: Held(r', w) == if w in owners then [] else Held(r, w))
    && r'.retry == r.retry && r'.dead == r.dead && r'.leases == r.leases
  }

  lemma {:induction false} ReverseHolds<T>(s: seq<T>)
    ensures multiset(Reverse(s)) == multiset(s)
  {
    if s != [] {
      ReverseHolds(s[1..]);
      assert s == [s[0]] + s[1..];
    }
  }

  lemma {:induction false} InOrderHolds(r: Redis, owners: seq<WorkerId>)
    ensures multiset(InOrder(r, owners)) == AllHeld(r, owners)
  {
    if owners != [] {
      InOrderHolds(r, owners[..|owners| - 1]);
      ReverseHolds(Held(r, owners[|owners| - 1]));
    }
  }

  /** The dead owners among the keys, in the order of their first mention. */
  function DeadOwners(leases: set<WorkerId>, self: WorkerId, keys: seq<WorkerId>): (owners: seq<WorkerId>)
    ensures forall i, j :: 0 <= i < j < |owners| ==> owners[i] != owners[j]
    ensures forall w :: w in owners <==> w in keys && w != self && w !in leases
  {
    if keys == [] then []
    else
      var last := keys[|keys| - 1];
      var before := DeadOwners(leases, self, keys[..|keys| - 1]);
      assert keys == keys[..|keys| - 1] + [last];
      if last != self && last !in leases && last !in keys[..|keys| - 1] then before + [last] else before
  }

  lemma {:induction false} BacklogIsInOrder(r: Redis, self: WorkerId, keys: seq<WorkerId>)
    ensures Backlog(r, self, keys) == InOrder(r, DeadOwners(r.leases, self, keys))
  {
    if keys != [] {
      var last, init := keys[|keys| - 1], keys[..|keys| - 1];
      BacklogIsInOrder(r, self, init);
      var before := DeadOwners(r.leases, self, init);
      if last != self && last !in r.leases && last !in init {
        assert (before + [last])[..|before|] == before;
      } else {
        assert Backlog(r, self, init) + [] == Backlog(r, self, init);
      }
    }
  }

  lemma RecoveryLaw(r: Redis, self: WorkerId, keys: seq<WorkerId>)
    ensures var r' := Recovered(r, self, keys);
            Rescued(r, self, keys, DeadOwners(r.leases, self, keys), |r'.jobs| - |r.jobs|, r')
  {
    var owners := DeadOwners(r.leases, self, keys);
    BacklogIsInOrder(r, self, keys);
    InOrderHolds(r, owners);
    hide Backlog, InOrder, AllHeld, DeadOwners;
    var r' := Recovered(r, self, keys);
    assert multiset(r.jobs + InOrder(r, owners)) == multiset(r.jobs) + multiset(InOrder(r, owners));
    forall w
      ensures Held(r', w) == if w in owners then [] else Held(r, w)
    {
    }
  }
}
