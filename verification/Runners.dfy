/** Any number of migration runners side by side, kept apart by the advisory lock
    (app/settle/migrate.py, run): their steps interleave in any order, and each may fail or die at
    any point. A runner's lock is released when its session ends. */
module Runners {
  import opened Common
  import opened Runner

  /** Where a runner stands: not holding the lock, holding it, working off a to-do list, or about
      to leave because an answer was lost. */
  datatype Phase<S> = Idle | Locked | Working(todo: seq<File<S>>) | Leaving

  /** `commits` lists the versions of the transactional files whose statements were committed. */
  datatype World<D, S> = World(db: Database<D>, lock: Option<nat>, phases: map<nat, Phase<S>>, commits: seq<string>)

  datatype Action<D> =
    | TryLock(runner: nat)
    | Recompute(runner: nat)
    | Apply(runner: nat, answered: bool)
    | Break(runner: nat, after: Database<D>)
    | Leave(runner: nat)

  function PhaseOf<D, S>(w: World<D, S>, r: nat): Phase<S> {
    if r in w.phases then w.phases[r] else Idle
  }

  function Next<D, S>(e: Engine<D, S>, w: World<D, S>, r: nat): Option<Database<D>> {
    var p := PhaseOf(w, r);
    if p.Working? && p.todo != [] then CleanFile(e, w.db, p.todo[0]) else None
  }

  ghost predicate Enabled<D, S>(e: Engine<D, S>, w: World<D, S>, a: Action<D>) {
    var p := PhaseOf(w, a.runner);
    match a
    case TryLock(_) => p.Idle? && w.lock == None
    case Recompute(_) => p.Locked?
    case Apply(r, _) => Next(e, w, r).Some?
    case Break(_, after) => p.Working? && p.todo != [] && Interrupted(e, w.db, p.todo[0], after)
    case Leave(_) => true
  }

  function Recorded<S>(f: File<S>): seq<string> {
    if f.noTx then [] else [f.version]
  }

  function Step<D, S>(e: Engine<D, S>, files: seq<File<S>>, w: World<D, S>, a: Action<D>): World<D, S> {
    var p := PhaseOf(w, a.runner);
    match a
    case TryLock(r) => w.(lock := Some(r), phases := w.phases[r := Locked])
    case Recompute(r) => w.(phases := w.phases[r := Working(Pending(files, w.db.applied))])
    case Apply(r, answered) =>
      if Next(e, w, r).Some? then
        World(Next(e, w, r).value, w.lock,
              w.phases[r := if answered then Working(p.todo[1..]) else Leaving],
              w.commits + Recorded(p.todo[0]))
      else w
    case Break(_, after) => w.(db := after)
    case Leave(r) => w.(lock := if w.lock == Some(r) then None else w.lock, phases := w.phases - {r})
  }

  ghost predicate IsRun<D, S>(e: Engine<D, S>, files: seq<File<S>>, w: World<D, S>, actions: seq<Action<D>>)
    decreases |actions|
  {
    actions == [] || (Enabled(e, w, actions[0]) && IsRun(e, files, Step(e, files, w, actions[0]), actions[1..]))
  }

  function After<D, S>(e: Engine<D, S>, files: seq<File<S>>, w: World<D, S>, actions: seq<Action<D>>): World<D, S>
    decreases |actions|
  {
    if actions == [] then w else After(e, files, Step(e, files, w, actions[0]), actions[1..])
  }

  /* ---- the invariant ---- */

  function TxVersions<S>(files: seq<File<S>>): seq<string> {
    if files == [] then [] else Recorded(files[0]) + TxVersions(files[1..])
  }

  /** How many files, from the first on, are no longer pending. */
  function Passed<S>(files: seq<File<S>>, applied: set<string>): int {
    |files| - |Pending(files, applied)|
  }

  /** The pending files are the last ones. */
  ghost predicate Ordered<S>(files: seq<File<S>>, applied: set<string>) {
    var n := Passed(files, applied);
    0 <= n <= |files| && Pending(files, applied) == files[n..]
  }

  /** Only the runner that holds the lock is at work, and its to-do list is what is pending now. */
  ghost predicate Exclusive<D, S>(files: seq<File<S>>, w: World<D, S>) {
    && (forall r :: r in w.phases && !w.phases[r].Idle? ==> w.lock == Some(r))
    && (forall r :: r in w.phases && w.phases[r].Working? ==> w.phases[r].todo == Pending(files, w.db.applied))
  }

  /** Since `first` files were passed, each transactional file passed was committed once, in order. */
  ghost predicate Inv<D, S>(files: seq<File<S>>, first: nat, w: World<D, S>) {
    && Exclusive(files, w)
    && Ordered(files, w.db.applied)
    && first <= Passed(files, w.db.applied)
    && w.commits == TxVersions(files[first..Passed(files, w.db.applied)])
  }

  /** Runners at rest on a schema of which a prefix was applied. */
  ghost predicate Init<D, S>(files: seq<File<S>>, w: World<D, S>) {
    w.lock == None && w.phases == map[] && w.commits == [] && Ordered(files, w.db.applied)
  }

  lemma InitInv<D, S>(files: seq<File<S>>, w: World<D, S>)
    requires Init(files, w)
    ensures Inv(files, Passed(files, w.db.applied), w)
  {
  }

  lemma {:induction false} TxVersionsSnoc<S>(files: seq<File<S>>, first: nat, n: nat)
    requires first <= n < |files|
    ensures TxVersions(files[first..n + 1]) == TxVersions(files[first..n]) + Recorded(files[n])
    decreases n - first
  {
    var some, more := files[first..n], files[first..n + 1];
    if first < n {
      TxVersionsSnoc(files, first + 1, n);
      assert some[1..] == files[first + 1..n] && more[1..] == files[first + 1..n + 1];
    } else {
      assert more == [files[n]] && more[1..] == [];
    }
  }

  lemma PassOne<S>(files: seq<File<S>>, applied: set<string>)
    requires DistinctVersions(files) && Ordered(files, applied) && Pending(files, applied) != []
    ensures var f, n := Pending(files, applied)[0], Passed(files, applied);
            && n < |files| && f == files[n]
            && Ordered(files, applied + {f.version}) && Passed(files, applied + {f.version}) == n + 1
            && Pending(files, applied + {f.version}) == Pending(files, applied)[1..]
  {
    PendingAfterFirst(files, applied);
    hide Pending, DistinctVersions;
    var n := Passed(files, applied);
    assert files[n..][1..] == files[n + 1..];
  }

  lemma ApplyKeeps<D, S>(e: Engine<D, S>, files: seq<File<S>>, first: nat, w: World<D, S>, a: Action<D>)
    requires DistinctVersions(files) && Inv(files, first, w) && a.Apply? && Enabled(e, w, a)
    ensures Inv(files, first, Step(e, files, w, a))
  {
    hide Pending, TxVersions, DistinctVersions, Passed, Ordered;
    PassOne(files, w.db.applied);
    TxVersionsSnoc(files, first, Passed(files, w.db.applied));
  }

  lemma StepKeeps<D, S>(e: Engine<D, S>, files: seq<File<S>>, first: nat, w: World<D, S>, a: Action<D>)
    requires DistinctVersions(files) && Inv(files, first, w) && Enabled(e, w, a)
    ensures Inv(files, first, Step(e, files, w, a))
  {
    if a.Apply? { ApplyKeeps(e, files, first, w, a); }
  }

  lemma {:induction false} RunKeeps<D, S>(e: Engine<D, S>, files: seq<File<S>>, first: nat, w: World<D, S>,
                                          actions: seq<Action<D>>)
    requires DistinctVersions(files) && Inv(files, first, w) && IsRun(e, files, w, actions)
    ensures Inv(files, first, After(e, files, w, actions))
    decreases |actions|
  {
    if actions != [] {
      StepKeeps(e, files, first, w, actions[0]);
      RunKeeps(e, files, first, Step(e, files, w, actions[0]), actions[1..]);
    }
  }

  /* ---- the theorems ---- */

  lemma {:induction false} OrderedIsPrefix<S>(files: seq<File<S>>, applied: set<string>)
    requires DistinctVersions(files) && Ordered(files, applied)
    ensures forall i :: 0 <= i < |files| ==> (files[i].version in applied <==> i < Passed(files, applied))
  {
    var n := Passed(files, applied);
    PendingAreFiles(files, applied);
    forall i | 0 <= i < |files|
      ensures files[i].version in applied <==> i < n
    {
      if i >= n {
        assert files[n..][i - n] == files[i];
        assert files[i] in Pending(files, applied);
      }
    }
  }

  lemma {:induction false} TxVersionsAre<S>(files: seq<File<S>>)
    requires DistinctVersions(files)
    ensures forall i, j :: 0 <= i < j < |TxVersions(files)| ==> TxVersions(files)[i] != TxVersions(files)[j]
    ensures forall v :: v in TxVersions(files) <==> exists f :: f in files && !f.noTx && f.version == v
  {
    if files != [] {
      var rest := files[1..];
      assert DistinctVersions(rest);
      TxVersionsAre(rest);
      assert files == [files[0]] + rest;
      forall v
        ensures v in TxVersions(files) <==> exists f :: f in files && !f.noTx && f.version == v
      {
        if v in TxVersions(rest) {
          var f :| f in rest && !f.noTx && f.version == v;
          assert f in files;
        }
      }
      assert forall j :: 0 <= j < |rest| ==> rest[j] == files[j + 1] && rest[j].version != files[0].version;
      assert files[0].version !in TxVersions(rest);
    }
  }

  /** Exactly once and in order: with any number of interleaved runners, from a schema of which a
      prefix was applied, the applied versions are always those of a prefix of the files, and the
      transactional files committed since are, in order and each once, those the prefix gained. */
  lemma ExactlyOnceInOrder<D, S>(e: Engine<D, S>, files: seq<File<S>>, w: World<D, S>, actions: seq<Action<D>>)
    requires DistinctVersions(files) && Init(files, w) && IsRun(e, files, w, actions)
    ensures var w' := After(e, files, w, actions);
            var first, n := Passed(files, w.db.applied), Passed(files, w'.db.applied);
            && 0 <= first <= n <= |files|
            && (forall i :: 0 <= i < |files| ==> (files[i].version in w'.db.applied <==> i < n))
            && w'.commits == TxVersions(files[first..n])
            && (forall i, j :: 0 <= i < j < |w'.commits| ==> w'.commits[i] != w'.commits[j])
  {
    var first := Passed(files, w.db.applied);
    InitInv(files, w);
    RunKeeps(e, files, first, w, actions);
    var w' := After(e, files, w, actions);
    OrderedIsPrefix(files, w'.db.applied);
    var gained := files[first..Passed(files, w'.db.applied)];
    assert DistinctVersions(gained);
    TxVersionsAre(gained);
  }

  /** No two runners are at work at the same time. */
  lemma OneAtWork<D, S>(e: Engine<D, S>, files: seq<File<S>>, w: World<D, S>, actions: seq<Action<D>>,
                        r1: nat, r2: nat)
    requires DistinctVersions(files) && Init(files, w) && IsRun(e, files, w, actions)
    requires var w' := After(e, files, w, actions); !PhaseOf(w', r1).Idle? && !PhaseOf(w', r2).Idle?
    ensures r1 == r2
  {
    InitInv(files, w);
    RunKeeps(e, files, Passed(files, w.db.applied), w, actions);
  }

  /** The interleaved runners take the same steps as one runner alone. */
  lemma StepIsRunnerStep<D, S>(e: Engine<D, S>, files: seq<File<S>>, first: nat, w: World<D, S>, a: Action<D>)
    requires Inv(files, first, w) && Enabled(e, w, a)
    ensures var w' := Step(e, files, w, a);
            w'.db == w.db || Runner.Step(e, files, w.db, w'.db)
  {
  }

  /** The resume theorem for interleaved runners: whatever they did, one clean run leaves what it
      would have left at the start; so when nothing is pending, the database is that of one clean run. */
  lemma {:induction false} ResumeInterleaved<D(!new), S>(e: Engine<D, S>, files: seq<File<S>>, first: nat,
                                                         w: World<D, S>, actions: seq<Action<D>>)
    requires DistinctVersions(files) && AllRestartable(e, files)
    requires Inv(files, first, w) && IsRun(e, files, w, actions)
    ensures var w' := After(e, files, w, actions);
            && CleanRun(e, files, w'.db) == CleanRun(e, files, w.db)
            && (Pending(files, w'.db.applied) == [] ==> CleanRun(e, files, w.db) == Some(w'.db))
    decreases |actions|
  {
    if actions != [] {
      var w1 := Step(e, files, w, actions[0]);
      StepKeeps(e, files, first, w, actions[0]);
      StepIsRunnerStep(e, files, first, w, actions[0]);
      if w1.db != w.db { StepKeepsOutcome(e, files, w.db, w1.db); }
      ResumeInterleaved(e, files, first, w1, actions[1..]);
    }
  }

  /* ---- a runner that is left alone gets through ---- */

  lemma OneAction<D, S>(e: Engine<D, S>, files: seq<File<S>>, w: World<D, S>, a: Action<D>, rest: seq<Action<D>>)
    requires Enabled(e, w, a) && IsRun(e, files, Step(e, files, w, a), rest)
    ensures IsRun(e, files, w, [a] + rest)
    ensures After(e, files, w, [a] + rest) == After(e, files, Step(e, files, w, a), rest)
  {
    hide Enabled, Step;
    assert ([a] + rest)[1..] == rest;
  }

  /** Working off a to-do list that can be applied. */
  lemma {:induction false} WorksOff<D, S>(e: Engine<D, S>, files: seq<File<S>>, w: World<D, S>, r: nat,
                                          todo: seq<File<S>>) returns (actions: seq<Action<D>>)
    requires PhaseOf(w, r) == Working(todo) && w.lock == Some(r) && ApplyAll(e, w.db, todo).Some?
    ensures IsRun(e, files, w, actions)
    ensures var w' := After(e, files, w, actions);
            w'.db == ApplyAll(e, w.db, todo).value && w'.lock == None && PhaseOf(w', r) == Idle
    decreases |todo|
  {
    if todo == [] {
      OneAction(e, files, w, Leave(r), []);
      actions := [Leave(r)] + [];
    } else {
      var a := Apply(r, true);
      var w1 := Step(e, files, w, a);
      hide CleanFile;
      var rest := WorksOff(e, files, w1, r, todo[1..]);
      OneAction(e, files, w, a, rest);
      actions := [a] + rest;
    }
  }

  /** With the lock free and the runner at rest, it can take the lock, apply everything a clean run
      can, and give the lock back. */
  lemma LoneRunnerFinishes<D, S>(e: Engine<D, S>, files: seq<File<S>>, w: World<D, S>, r: nat)
    returns (actions: seq<Action<D>>)
    requires w.lock == None && PhaseOf(w, r) == Idle && CleanRun(e, files, w.db).Some?
    ensures IsRun(e, files, w, actions)
    ensures var w' := After(e, files, w, actions);
            w'.db == CleanRun(e, files, w.db).value && w'.lock == None && PhaseOf(w', r) == Idle
  {
    hide ApplyAll, Pending;
    var w1 := Step(e, files, w, TryLock(r));
    var w2 := Step(e, files, w1, Recompute(r));
    var rest := WorksOff(e, files, w2, r, Pending(files, w.db.applied));
    OneAction(e, files, w1, Recompute(r), rest);
    OneAction(e, files, w, TryLock(r), [Recompute(r)] + rest);
    actions := [TryLock(r)] + ([Recompute(r)] + rest);
  }
}
