/** The migration runner as it runs (app/settle/migrate.py): applying a file with its retries, and
    working off the to-do list. */
module Migrate {
  import opened Common
  import opened Splitter
  import opened Runner
  import opened MigrationFiles

  /* ---- the states of a run ---- */

  ghost predicate Attempt<D, S>(e: Engine<D, S>, f: File<S>, before: Database<D>, after: Database<D>) {
    CleanFile(e, before, f) == Some(after) || Interrupted(e, before, f, after)
  }

  /** The states before, between and after the attempts on one file: only the last can record it. */
  ghost predicate Attempts<D, S>(e: Engine<D, S>, f: File<S>, part: seq<Database<D>>) {
    && part != []
    && (forall i :: 0 < i < |part| ==> Attempt(e, f, part[i - 1], part[i]))
    && (forall i :: 0 <= i < |part| - 1 ==> part[i].applied == part[0].applied)
  }

  lemma OneMoreAttempt<D, S>(e: Engine<D, S>, f: File<S>, part: seq<Database<D>>, after: Database<D>)
    requires Attempts(e, f, part) && part[|part| - 1].applied == part[0].applied
    requires CleanFile(e, part[|part| - 1], f) == Some(after) || Interrupted(e, part[|part| - 1], f, after)
    ensures Attempts(e, f, part + [after])
    ensures Interrupted(e, part[|part| - 1], f, after) ==> after.applied == part[0].applied
  {
  }

  /** A run from `before` to `after`: it only ever takes the first pending file, in order and one
      at a time, `done` files and perhaps one more are recorded, and what a clean run would do does
      not change. */
  ghost predicate Resumable<D(!new), S>(e: Engine<D, S>, files: seq<File<S>>, before: Database<D>,
                                        after: Database<D>, trace: seq<Database<D>>, done: nat)
  {
    && trace != [] && trace[0] == before && trace[|trace| - 1] == after
    && (DistinctVersions(files) ==>
          && var todo := Pending(files, before.applied);
          && IsTrace(e, files, trace)
          && done <= |todo|
          && (Pending(files, after.applied) == todo[done..]
              || (done < |todo| && Pending(files, after.applied) == todo[done + 1..]))
          && (AllRestartable(e, files) ==> CleanRun(e, files, after) == CleanRun(e, files, before)))
  }

  /** The same after whole files. */
  ghost predicate Reached<D, S>(e: Engine<D, S>, files: seq<File<S>>, start: Database<D>, now: Database<D>,
                                trace: seq<Database<D>>, done: nat)
  {
    && trace != [] && trace[0] == start && trace[|trace| - 1] == now
    && (DistinctVersions(files) ==>
          && var todo := Pending(files, start.applied);
          && IsTrace(e, files, trace)
          && done <= |todo| && Pending(files, now.applied) == todo[done..])
  }

  lemma ReachedAtStart<D(!new), S>(e: Engine<D, S>, files: seq<File<S>>, start: Database<D>)
    ensures Reached(e, files, start, start, [start], 0)
  {
  }

  lemma ReachedIsResumable<D(!new), S>(e: Engine<D, S>, files: seq<File<S>>, start: Database<D>,
                                       now: Database<D>, trace: seq<Database<D>>, done: nat)
    requires Reached(e, files, start, now, trace, done)
    ensures Resumable(e, files, start, now, trace, done)
  {
    if DistinctVersions(files) && AllRestartable(e, files) { Resume(e, files, trace); }
  }

  lemma ReachedTheEnd<D(!new), S>(e: Engine<D, S>, files: seq<File<S>>, start: Database<D>, now: Database<D>,
                                  trace: seq<Database<D>>, done: nat)
    requires AllDone(e, files, start, now, trace, done)
    ensures DistinctVersions(files) ==>
              && Pending(files, now.applied) == []
              && (AllRestartable(e, files) ==> CleanRun(e, files, start) == Some(now))
  {
    if DistinctVersions(files) && AllRestartable(e, files) { Resume(e, files, trace); }
  }

  ghost function Extended<D>(trace: seq<Database<D>>, part: seq<Database<D>>): seq<Database<D>> {
    if part == [] then trace else trace + part[1..]
  }

  lemma {:induction false} AttemptsAreSteps<D, S>(e: Engine<D, S>, files: seq<File<S>>, f: File<S>,
                                                  trace: seq<Database<D>>, part: seq<Database<D>>)
    requires IsTrace(e, files, trace) && Attempts(e, f, part) && part[0] == trace[|trace| - 1]
    requires |part| > 1 && Pending(files, part[0].applied) != [] && Pending(files, part[0].applied)[0] == f
    ensures IsTrace(e, files, Extended(trace, part))
  {
    var all := trace + part[1..];
    forall i | 0 < i < |all|
      ensures Step(e, files, all[i - 1], all[i])
    {
      if i >= |trace| {
        var k := i - |trace| + 1;
        assert all[i] == part[k] && all[i - 1] == part[k - 1];
      }
    }
  }

  ghost predicate IsNext<D, S>(files: seq<File<S>>, start: Database<D>, done: nat, f: File<S>) {
    done < |Pending(files, start.applied)| && f == Pending(files, start.applied)[done]
  }

  lemma NextIsLoaded<D>(files: seq<File<string>>, start: Database<D>, todo: seq<Source>, k: nat)
    requires LoadAll(todo) == Pending(files, start.applied) && k < |todo|
    ensures IsNext(files, start, k, Load(todo[k]))
  {
    hide Load, Pending;
  }

  /** After the attempts on the next file of the to-do list. */
  lemma AfterAttempts<D(!new), S>(e: Engine<D, S>, files: seq<File<S>>, f: File<S>, start: Database<D>,
                                  before: Database<D>, now: Database<D>,
                                  trace: seq<Database<D>>, done: nat, part: seq<Database<D>>)
    requires Reached(e, files, start, before, trace, done) && IsNext(files, start, done, f)
    requires Attempts(e, f, part) && |part| > 1 && part[0] == before && part[|part| - 1] == now
    ensures Resumable(e, files, start, now, Extended(trace, part), done)
    ensures CleanFile(e, part[|part| - 2], f) == Some(now) ==>
              Reached(e, files, start, now, Extended(trace, part), done + 1)
  {
    if DistinctVersions(files) {
      var todo := Pending(files, start.applied);
      AttemptsAreSteps(e, files, f, trace, part);
      PendingAfterFirst(files, part[0].applied);
      assert todo[done..][1..] == todo[done + 1..];
      if AllRestartable(e, files) { Resume(e, files, Extended(trace, part)); }
      assert part[|part| - 2].applied == part[0].applied;
    }
  }

  /* ---- the attempts on one file ---- */

  /** The seconds slept between n attempts: 2 + 4 + 8 and so on. */
  function Slept(n: nat): nat {
    if n <= 1 then 0 else Slept(n - 1) + Pow2(n - 1)
  }

  lemma {:induction false} SleptIs(n: nat)
    requires n >= 1
    ensures Slept(n) == Pow2(n) - 2
    decreases n
  {
    if n > 1 { SleptIs(n - 1); }
  }

  /** The first n attempts, each on the state it found, ran into a lock timeout. */
  ghost predicate Locked<D>(e: Engine<D, string>, src: Source, fates: nat -> Fate<D>, part: seq<Database<D>>, n: nat)
    requires n <= |part|
  {
    forall i :: 0 <= i < n ==> Verdict(e, part[i].content, src, fates(i + 1)) == Failed(LOCK_NOT_AVAILABLE)
  }

  /** Every attempt so far ran into a lock timeout. */
  ghost predicate Trying<D>(e: Engine<D, string>, src: Source, fates: nat -> Fate<D>,
                            before: Database<D>, now: Database<D>, part: seq<Database<D>>)
  {
    && part != [] && Attempts(e, Load(src), part)
    && part[0] == before && part[|part| - 1] == now && now.applied == before.applied
    && Locked(e, src, fates, part, |part| - 1)
  }

  /** The attempts are over: at most `attempts` were made, only a lock timeout was tried again, and
      one ends them only when no attempt is left. The last one ended with r. */
  ghost predicate Tried<D>(e: Engine<D, string>, src: Source, fates: nat -> Fate<D>, attempts: int,
                           before: Database<D>, now: Database<D>, part: seq<Database<D>>, r: Option<Ran>)
  {
    && part != [] && Attempts(e, Load(src), part) && part[0] == before && part[|part| - 1] == now
    && var n := |part| - 1;
    && (r == None <==> attempts <= 0) && (r == None <==> n == 0)
    && (n > 0 ==>
          && n <= attempts && Locked(e, src, fates, part, n - 1)
          && r.value == Verdict(e, part[n - 1].content, src, fates(n))
          && (r.value == Failed(LOCK_NOT_AVAILABLE) ==> n == attempts)
          && (r.value == Applied ==> CleanFile(e, part[n - 1], Load(src)) == Some(now)))
  }

  lemma NothingTried<D>(e: Engine<D, string>, src: Source, fates: nat -> Fate<D>, attempts: int, db: Database<D>)
    ensures Trying(e, src, fates, db, db, [db])
    ensures attempts <= 0 ==> Tried(e, src, fates, attempts, db, db, [db], None)
  {
    hide Load;
  }

  lemma OneMoreLocked<D>(e: Engine<D, string>, src: Source, fates: nat -> Fate<D>,
                         part: seq<Database<D>>, after: Database<D>)
    requires part != [] && Locked(e, src, fates, part, |part| - 1)
    ensures Locked(e, src, fates, part + [after], |part| - 1)
    ensures Verdict(e, part[|part| - 1].content, src, fates(|part|)) == Failed(LOCK_NOT_AVAILABLE) ==>
              Locked(e, src, fates, part + [after], |part|)
  {
    hide Verdict;
  }

  lemma Appended<T>(s: seq<T>, last: T)
    requires s != []
    ensures var t := s + [last];
            |t| == |s| + 1 && t[|t| - 1] == last && t[0] == s[0] && t[|t| - 2] == s[|s| - 1]
  {
  }

  /** One more attempt: it ends them, unless it runs into a lock timeout and others are left. */
  lemma OneMoreTry<D>(e: Engine<D, string>, src: Source, fates: nat -> Fate<D>, attempts: int,
                      before: Database<D>, now: Database<D>, part: seq<Database<D>>, r: Ran, after: Database<D>)
    requires Trying(e, src, fates, before, now, part) && |part| <= attempts
    requires r == Verdict(e, now.content, src, fates(|part|))
    requires Leaves(e, now, Load(src), Records(e, now.content, src, fates(|part|)), after)
    ensures var goesOn := r == Failed(LOCK_NOT_AVAILABLE) && |part| < attempts;
            && (goesOn ==> Trying(e, src, fates, before, after, part + [after]))
            && (!goesOn ==> Tried(e, src, fates, attempts, before, after, part + [after], Some(r)))
  {
    hide Verdict, Records, Load, Locked, Attempts, CleanFile, Interrupted;
    SuccessRecords(e, now.content, src, fates(|part|));
    Appended(part, after);
    OneMoreLocked(e, src, fates, part, after);
    OneMoreAttempt(e, Load(src), part, after);
  }

  /* ---- the laws of one application and of the attempts ---- */

  /** An application from what its commands answer: it ends as the first command that is not answered
      well, and is applied if there is none and the file can be executed. Applied, it has recorded the
      version; with an error that was answered nothing is recorded, and a transactional file has
      changed nothing; and a record that took effect unheard counts. */
  ghost predicate FileAsAnswered<D(!new)>(e: Engine<D, string>, src: Source, fate: Fate<D>,
                                          before: Database<D>, after: Database<D>, r: Ran)
  {
    && (forall o: Outcome<D> :: Hits(e, before.content, src, fate, o) ==> r == Reported(o))
    && (r == Applied <==> Smooth(src, fate) && fate.record.Fine? && Effect(e, before.content, Load(src)).Some?)
    && (r == Applied ==> after.applied == before.applied + {Version(src.name)})
    && (r.Failed? && r.sqlstate != "" ==>
          after.applied == before.applied && (!IsNoTx(src) ==> after == before))
    && (Smooth(src, fate) && Effect(e, before.content, Load(src)).Some? && LandedUnheard(fate) ==>
          CleanFile(e, before, Load(src)) == Some(after))
  }

  /** The record of the version took effect, but its answer never came. */
  predicate LandedUnheard<D>(fate: Fate<D>) {
    fate.landed && (fate.record.Crash? || (fate.record.Error? && fate.record.sqlstate == ""))
  }

  lemma AllHitsReported<D(!new)>(e: Engine<D, string>, d: D, src: Source, fate: Fate<D>)
    ensures forall o: Outcome<D> :: Hits(e, d, src, fate, o) ==> Verdict(e, d, src, fate) == Reported(o)
  {
    hide Verdict, Ready, HitsStatement, Well, Statements, IsNoTx;
    forall o: Outcome<D> | Hits(e, d, src, fate, o)
      ensures Verdict(e, d, src, fate) == Reported(o)
    {
      HitIsReported(e, d, src, fate, o);
    }
  }

  /** What the state left says of the record. */
  lemma LeftLaw<D>(e: Engine<D, string>, src: Source, recorded: bool, before: Database<D>, after: Database<D>)
    requires Leaves(e, before, Load(src), recorded, after)
    ensures recorded ==>
              CleanFile(e, before, Load(src)) == Some(after) && after.applied == before.applied + {Version(src.name)}
    ensures !recorded ==> after.applied == before.applied && (!IsNoTx(src) ==> after == before)
  {
    LoadVersion(src);
    LoadMode(src);
    hide Load, Effect, Left, Version, IsNoTx;
  }

  lemma UnheardRecords<D>(e: Engine<D, string>, d: D, src: Source, fate: Fate<D>)
    requires Smooth(src, fate) && Effect(e, d, Load(src)).Some? && LandedUnheard(fate)
    ensures Records(e, d, src, fate)
  {
    hide Smooth, Effect, Load, BodyEnd;
    AppliedIff(e, d, src, fate);
  }

  lemma FileLaw<D(!new)>(e: Engine<D, string>, src: Source, fate: Fate<D>, before: Database<D>, after: Database<D>)
    requires Leaves(e, before, Load(src), Records(e, before.content, src, fate), after)
    ensures FileAsAnswered(e, src, fate, before, after, Verdict(e, before.content, src, fate))
  {
    hide Verdict, Smooth, Load, Effect, Leaves, Version, Records, Hits, IsNoTx;
    AppliedIff(e, before.content, src, fate);
    AllHitsReported(e, before.content, src, fate);
    SuccessRecords(e, before.content, src, fate);
    if Smooth(src, fate) && Effect(e, before.content, Load(src)).Some? && LandedUnheard(fate) {
      UnheardRecords(e, before.content, src, fate);
    }
    hide LandedUnheard, CleanFile;
    LeftLaw(e, src, Records(e, before.content, src, fate), before, after);
  }

  lemma LoadMode(src: Source)
    ensures Load(src).noTx == IsNoTx(src)
    ensures IsNoTx(src) <==> Starts(LStrip(src.text), "-- migrate:no-transaction")
  {
    hide Starts, LStrip, Statements, Unbracketed;
  }

  /** The first n - 1 attempts, as far as they take place, run into lock timeouts on the states they
      find, and attempt n is answered well on a file that can be applied. */
  ghost predicate Outlasted<D(!new)>(e: Engine<D, string>, src: Source, fates: nat -> Fate<D>,
                                     part: seq<Database<D>>, n: nat)
  {
    && (forall i :: 1 <= i < n && i < |part| ==> TimesOut(e, part[i - 1].content, src, fates(i)))
    && (1 <= n < |part| ==> SmoothAttempt(src, fates(n)) && Effect(e, part[n - 1].content, Load(src)).Some?)
  }

  lemma TriedTimesOut<D(!new)>(e: Engine<D, string>, src: Source, fates: nat -> Fate<D>, attempts: int,
                               before: Database<D>, now: Database<D>, part: seq<Database<D>>, r: Option<Ran>)
    requires Tried(e, src, fates, attempts, before, now, part, r)
    ensures forall i :: 1 <= i < |part| - 1 ==> TimesOut(e, part[i - 1].content, src, fates(i))
    ensures attempts > 0 ==> |part| > 1
    ensures attempts > 0 && TimesOut(e, part[|part| - 2].content, src, fates(|part| - 1)) ==> |part| - 1 == attempts
  {
    hide Attempts, Load, Verdict, TimesOut, CleanFile;
    forall i | 1 <= i < |part| - 1
      ensures TimesOut(e, part[i - 1].content, src, fates(i))
    {
      LockedAt(e, src, fates, part, |part| - 2, i);
      TimesOutIff(e, part[i - 1].content, src, fates(i));
    }
    if attempts > 0 { TimesOutIff(e, part[|part| - 2].content, src, fates(|part| - 1)); }
  }

  lemma LockedAt<D>(e: Engine<D, string>, src: Source, fates: nat -> Fate<D>, part: seq<Database<D>>, n: nat, i: nat)
    requires 1 <= i <= n <= |part| && Locked(e, src, fates, part, n)
    ensures Verdict(e, part[i - 1].content, src, fates(i)) == Failed(LOCK_NOT_AVAILABLE)
  {
    hide Verdict;
    assert i - 1 + 1 == i;
  }

  /** Lock timeouts are outlasted: if the first attempts run into them and a later one, within the
      number asked for, is answered well on a file that can be applied, the file is applied and
      recorded by that attempt. */
  lemma OutlastedIsApplied<D(!new)>(e: Engine<D, string>, src: Source, fates: nat -> Fate<D>, attempts: int,
                                    before: Database<D>, now: Database<D>, part: seq<Database<D>>, r: Option<Ran>,
                                    n: nat)
    requires Tried(e, src, fates, attempts, before, now, part, r)
    requires 1 <= n <= attempts && Outlasted(e, src, fates, part, n)
    ensures |part| - 1 == n && r == Some(Applied) && now.applied == before.applied + {Version(src.name)}
  {
    TriedTimesOut(e, src, fates, attempts, before, now, part, r);
    var m := |part| - 1;
    if m >= n {
      AppliedIff(e, part[n - 1].content, src, fates(n));
      if m > n { LockedAt(e, src, fates, part, m - 1, n); }
    }
    hide Verdict, Load, Smooth, Effect, Locked, TimesOut, Attempts, Version;
    assert m == n;
    assert r == Some(Applied);
    AppliedRecords(e, src, fates, attempts, before, now, part);
  }

  /** The attempts from what their commands answer: only lock timeouts are tried again, one is the end
      only at the last attempt, and lock timeouts are outlasted. */
  ghost predicate AsAnswered<D(!new)>(e: Engine<D, string>, src: Source, fates: nat -> Fate<D>, attempts: int,
                                      before: Database<D>, now: Database<D>, part: seq<Database<D>>, r: Option<Ran>)
  {
    && (forall i :: 1 <= i < |part| - 1 ==> TimesOut(e, part[i - 1].content, src, fates(i)))
    && (attempts > 0 ==>
          && |part| > 1
          && (TimesOut(e, part[|part| - 2].content, src, fates(|part| - 1)) ==> |part| - 1 == attempts))
    && (forall n: nat :: 1 <= n <= attempts && Outlasted(e, src, fates, part, n) ==>
          |part| - 1 == n && r == Some(Applied) && now.applied == before.applied + {Version(src.name)})
  }

  lemma TriedAsAnswered<D(!new)>(e: Engine<D, string>, src: Source, fates: nat -> Fate<D>, attempts: int,
                                 before: Database<D>, now: Database<D>, part: seq<Database<D>>, r: Option<Ran>)
    requires Tried(e, src, fates, attempts, before, now, part, r)
    ensures AsAnswered(e, src, fates, attempts, before, now, part, r)
  {
    hide Tried, TimesOut, Outlasted, Version;
    TriedTimesOut(e, src, fates, attempts, before, now, part, r);
    forall n: nat | 1 <= n <= attempts && Outlasted(e, src, fates, part, n)
      ensures |part| - 1 == n && r == Some(Applied) && now.applied == before.applied + {Version(src.name)}
    {
      OutlastedIsApplied(e, src, fates, attempts, before, now, part, r, n);
    }
  }

  /* ---- what the fates decide ---- */

  /** The first attempt on every file is answered well. */
  ghost predicate Undisturbed<D>(todo: seq<Source>, fates: nat -> nat -> Fate<D>) {
    forall k :: 0 <= k < |todo| ==> SmoothAttempt(todo[k], fates(k)(1))
  }

  ghost predicate SmoothAttempt<D>(src: Source, fate: Fate<D>) {
    Smooth(src, fate) && fate.record.Fine?
  }

  /** An undisturbed run that can apply everything is on its way to do so. */
  ghost predicate OnCourse<D>(e: Engine<D, string>, todo: seq<Source>, fates: nat -> nat -> Fate<D>, k: nat,
                              start: Database<D>, now: Database<D>)
    requires k <= |todo|
  {
    var end := ApplyAll(e, start, LoadAll(todo));
    Undisturbed(todo, fates) && end.Some? ==> ApplyAll(e, now, LoadAll(todo[k..])) == end
  }

  lemma CourseBegins<D>(e: Engine<D, string>, todo: seq<Source>, fates: nat -> nat -> Fate<D>, start: Database<D>)
    ensures OnCourse(e, todo, fates, 0, start, start)
  {
    assert todo[0..] == todo;
  }

  lemma ApplyNext<D>(e: Engine<D, string>, now: Database<D>, todo: seq<Source>, k: nat)
    requires k < |todo|
    ensures var next := CleanFile(e, now, Load(todo[k]));
            ApplyAll(e, now, LoadAll(todo[k..])) ==
            if next.Some? then ApplyAll(e, next.value, LoadAll(todo[k + 1..])) else None
  {
    LoadFirst(todo[k..]);
    assert todo[k..][1..] == todo[k + 1..];
    hide LoadAll, Load, CleanFile;
    assert ([Load(todo[k])] + LoadAll(todo[k + 1..]))[1..] == LoadAll(todo[k + 1..]);
  }

  lemma FirstLocked<D>(e: Engine<D, string>, src: Source, fates: nat -> Fate<D>, part: seq<Database<D>>, n: nat)
    requires 0 < n <= |part| && Locked(e, src, fates, part, n)
    ensures Verdict(e, part[0].content, src, fates(1)) == Failed(LOCK_NOT_AVAILABLE)
  {
    hide Verdict;
  }

  /** A first attempt that applies the file is the only one. */
  lemma FirstApplies<D>(e: Engine<D, string>, src: Source, fates: nat -> Fate<D>, attempts: int,
                        before: Database<D>, now: Database<D>, part: seq<Database<D>>, r: Option<Ran>)
    requires Tried(e, src, fates, attempts, before, now, part, r) && attempts > 0
    requires Verdict(e, before.content, src, fates(1)) == Applied
    ensures r == Some(Applied) && CleanFile(e, before, Load(src)) == Some(now)
  {
    hide Verdict, Load, Attempts, CleanFile, Locked;
    var n := |part| - 1;
    if n > 1 { FirstLocked(e, src, fates, part, n - 1); }
  }

  /** A smooth first attempt on a file that can be applied is the only one, and applies it. */
  lemma SmoothIsApplied<D>(e: Engine<D, string>, src: Source, fates: nat -> Fate<D>, attempts: int,
                           before: Database<D>, now: Database<D>, part: seq<Database<D>>, r: Option<Ran>)
    requires Tried(e, src, fates, attempts, before, now, part, r) && attempts > 0
    requires SmoothAttempt(src, fates(1)) && CleanFile(e, before, Load(src)).Some?
    ensures r == Some(Applied) && CleanFile(e, before, Load(src)) == Some(now)
  {
    hide Tried, Verdict, Smooth, Load, Effect;
    AppliedIff(e, before.content, src, fates(1));
    hide CleanFile;
    FirstApplies(e, src, fates, attempts, before, now, part, r);
  }

  lemma CourseGoesOn<D>(e: Engine<D, string>, todo: seq<Source>, fates: nat -> nat -> Fate<D>, k: nat, attempts: int,
                        start: Database<D>, before: Database<D>, now: Database<D>,
                        part: seq<Database<D>>, r: Option<Ran>)
    requires k < |todo| && attempts > 0 && OnCourse(e, todo, fates, k, start, before)
    requires Tried(e, todo[k], fates(k), attempts, before, now, part, r)
    ensures OnCourse(e, todo, fates, k + 1, start, now)
    ensures Undisturbed(todo, fates) && ApplyAll(e, start, LoadAll(todo)).Some? ==> r == Some(Applied)
  {
    hide Tried, SmoothAttempt, CleanFile, LoadAll, Load, ApplyAll;
    if Undisturbed(todo, fates) && ApplyAll(e, start, LoadAll(todo)).Some? {
      ApplyNext(e, before, todo, k);
      assert SmoothAttempt(todo[k], fates(k)(1));
      SmoothIsApplied(e, todo[k], fates(k), attempts, before, now, part, r);
    }
  }

  lemma CourseEnds<D>(e: Engine<D, string>, todo: seq<Source>, fates: nat -> nat -> Fate<D>,
                      start: Database<D>, now: Database<D>)
    requires OnCourse(e, todo, fates, |todo|, start, now)
    ensures Undisturbed(todo, fates) && ApplyAll(e, start, LoadAll(todo)).Some? ==>
              ApplyAll(e, start, LoadAll(todo)) == Some(now)
  {
    assert LoadAll(todo[|todo|..]) == [];
    hide LoadAll;
  }

  /** The exit code that a result of the last attempt on a file leads to. */
  function CodeOf(r: Ran): Option<int> {
    match r
    case Applied => Some(0)
    case Failed(_) => Some(1)
    case Crashed => None
  }

  /** The first `done` files of the to-do list were tried one after the other, each on what the one
      before it left, and applied: from `start` to `now` through the states `trace`. */
  ghost predicate Story<D(!new)>(e: Engine<D, string>, todo: seq<Source>, attempts: int, fates: nat -> nat -> Fate<D>,
                                 done: nat, start: Database<D>, now: Database<D>, trace: seq<Database<D>>)
    decreases done, 0
  {
    if done == 0 then now == start && trace == [start]
    else StoryOfOneMore(e, todo, attempts, fates, done - 1, start, now, trace)
  }

  /** The same for k files and one more. */
  ghost predicate StoryOfOneMore<D(!new)>(e: Engine<D, string>, todo: seq<Source>, attempts: int,
                                          fates: nat -> nat -> Fate<D>, k: nat, start: Database<D>,
                                          now: Database<D>, trace: seq<Database<D>>)
    decreases k, 1
  {
    && k < |todo|
    && exists before, earlier, part ::
         && Story(e, todo, attempts, fates, k, start, before, earlier)
         && Turn(e, todo[k], fates(k), attempts, before, now, earlier, trace, part, Applied)
  }

  /** One turn of the loop: the attempts on a file, which end with r. */
  ghost predicate Turn<D>(e: Engine<D, string>, src: Source, fates: nat -> Fate<D>, attempts: int,
                          before: Database<D>, now: Database<D>, earlier: seq<Database<D>>,
                          trace: seq<Database<D>>, part: seq<Database<D>>, r: Ran)
  {
    Tried(e, src, fates, attempts, before, now, part, Some(r)) && trace == Extended(earlier, part)
  }

  /** Behind the first `done` files, the attempts on the next one were used up by a failure, from
      which `now` and the code come. */
  ghost predicate Stopped<D(!new)>(e: Engine<D, string>, todo: seq<Source>, attempts: int, fates: nat -> nat -> Fate<D>,
                                   done: nat, start: Database<D>, now: Database<D>, trace: seq<Database<D>>,
                                   rc: Option<int>)
  {
    && done < |todo|
    && exists before, earlier, part, r ::
         && Story(e, todo, attempts, fates, done, start, before, earlier)
         && Turn(e, todo[done], fates(done), attempts, before, now, earlier, trace, part, r)
         && r != Applied && rc == CodeOf(r)
  }

  lemma StoryBegins<D(!new)>(e: Engine<D, string>, todo: seq<Source>, attempts: int, fates: nat -> nat -> Fate<D>,
                             start: Database<D>)
    ensures Story(e, todo, attempts, fates, 0, start, start, [start])
  {
  }

  lemma StoryGoesOn<D(!new)>(e: Engine<D, string>, todo: seq<Source>, attempts: int, fates: nat -> nat -> Fate<D>,
                             k: nat, start: Database<D>, before: Database<D>, now: Database<D>,
                             earlier: seq<Database<D>>, part: seq<Database<D>>)
    requires k < |todo| && Story(e, todo, attempts, fates, k, start, before, earlier)
    requires Tried(e, todo[k], fates(k), attempts, before, now, part, Some(Applied))
    ensures Story(e, todo, attempts, fates, k + 1, start, now, Extended(earlier, part))
  {
    hide Tried, Extended;
    assert Turn(e, todo[k], fates(k), attempts, before, now, earlier, Extended(earlier, part), part, Applied);
    assert StoryOfOneMore(e, todo, attempts, fates, k, start, now, Extended(earlier, part));
    hide Story, Turn, StoryOfOneMore;
    StoryUnfolds(e, todo, attempts, fates, k, start, now, Extended(earlier, part));
  }

  lemma StoryUnfolds<D(!new)>(e: Engine<D, string>, todo: seq<Source>, attempts: int, fates: nat -> nat -> Fate<D>,
                              k: nat, start: Database<D>, now: Database<D>, trace: seq<Database<D>>)
    ensures Story(e, todo, attempts, fates, k + 1, start, now, trace) ==
            StoryOfOneMore(e, todo, attempts, fates, k, start, now, trace)
  {
    hide Turn;
  }

  lemma StopsHere<D(!new)>(e: Engine<D, string>, todo: seq<Source>, attempts: int, fates: nat -> nat -> Fate<D>,
                           k: nat, start: Database<D>, before: Database<D>, now: Database<D>,
                           earlier: seq<Database<D>>, part: seq<Database<D>>, r: Ran)
    requires k < |todo| && Story(e, todo, attempts, fates, k, start, before, earlier)
    requires Tried(e, todo[k], fates(k), attempts, before, now, part, Some(r)) && r != Applied
    ensures Stopped(e, todo, attempts, fates, k, start, now, Extended(earlier, part), CodeOf(r))
    ensures CodeOf(r) != Some(0)
  {
    hide Tried, Extended, Story;
    assert Turn(e, todo[k], fates(k), attempts, before, now, earlier, Extended(earlier, part), part, r);
  }

  /** An applied file's version, and no other, is recorded. */
  lemma AppliedRecords<D>(e: Engine<D, string>, src: Source, fates: nat -> Fate<D>, attempts: int,
                          before: Database<D>, now: Database<D>, part: seq<Database<D>>)
    requires Tried(e, src, fates, attempts, before, now, part, Some(Applied))
    ensures now.applied == before.applied + {Version(src.name)}
  {
    LoadVersion(src);
    hide Load, Verdict, Locked, Effect, Version;
    var n := |part| - 1;
    assert part[n - 1].applied == part[0].applied;
  }

  ghost predicate AllNamed(todo: seq<Source>, done: nat, applied: set<string>) {
    done <= |todo| && forall j :: 0 <= j < done ==> Version(todo[j].name) in applied
  }

  lemma OneMoreNamed(todo: seq<Source>, k: nat, before: set<string>, after: set<string>)
    requires AllNamed(todo, k, before) && k < |todo| && after == before + {Version(todo[k].name)}
    ensures AllNamed(todo, k + 1, after)
  {
    hide Version;
  }

  /** Every file of the story is recorded, and nothing recorded before is lost. */
  lemma {:induction false} StoryRecords<D(!new)>(e: Engine<D, string>, todo: seq<Source>, attempts: int,
                                                 fates: nat -> nat -> Fate<D>, done: nat, start: Database<D>,
                                                 now: Database<D>, trace: seq<Database<D>>)
    requires Story(e, todo, attempts, fates, done, start, now, trace)
    ensures start.applied <= now.applied && AllNamed(todo, done, now.applied)
    decreases done
  {
    hide Tried, Version, Extended;
    if done > 0 {
      hide AllNamed;
      var k := done - 1;
      StoryUnfolds(e, todo, attempts, fates, k, start, now, trace);
      hide Story;
      var before, earlier, part :|
        && Story(e, todo, attempts, fates, k, start, before, earlier)
        && Turn(e, todo[k], fates(k), attempts, before, now, earlier, trace, part, Applied);
      hide StoryOfOneMore;
      StoryRecords(e, todo, attempts, fates, k, start, before, earlier);
      AppliedRecords(e, todo[k], fates(k), attempts, before, now, part);
      OneMoreNamed(todo, k, before.applied, now.applied);
    }
  }

  /** After a whole story nothing is pending, even where files share a version. */
  lemma StoryLeavesNothing<D(!new)>(e: Engine<D, string>, sources: seq<Source>, todo: seq<Source>, attempts: int,
                                    fates: nat -> nat -> Fate<D>, start: Database<D>, now: Database<D>,
                                    trace: seq<Database<D>>)
    requires todo == PendingSources(sources, start.applied)
    requires Story(e, todo, attempts, fates, |todo|, start, now, trace)
    ensures Pending(LoadAll(sources), now.applied) == []
  {
    hide *;
    StoryRecords(e, todo, attempts, fates, |todo|, start, now, trace);
    NoneLeft(sources, start.applied, now.applied);
    PendingLoaded(sources, now.applied);
    NothingLoaded();
  }

  lemma NothingLoaded()
    ensures LoadAll([]) == []
  {
  }

  lemma {:induction false} NoneLeft(sources: seq<Source>, before: set<string>, after: set<string>)
    requires before <= after
    requires var todo := PendingSources(sources, before); AllNamed(todo, |todo|, after)
    ensures PendingSources(sources, after) == []
  {
    hide Version;
    if sources != [] {
      var todo, later := PendingSources(sources, before), PendingSources(sources[1..], before);
      if Version(sources[0].name) in before {
        assert todo == later;
      } else {
        assert todo == [sources[0]] + later;
        LaterNamed(sources[0], later, after);
      }
      hide AllNamed;
      NoneLeft(sources[1..], before, after);
    }
  }

  lemma LaterNamed(first: Source, later: seq<Source>, applied: set<string>)
    requires AllNamed([first] + later, |later| + 1, applied)
    ensures Version(first.name) in applied && AllNamed(later, |later|, applied)
  {
    hide Version;
    var todo := [first] + later;
    assert todo[0] == first && forall j :: 0 <= j < |later| ==> later[j] == todo[j + 1];
  }

  /** The lock is not free at any of the tries, one every two seconds for two minutes. */
  ghost predicate NeverFree(lockFree: nat -> bool) {
    forall t: nat :: t <= 122 && t % 2 == 0 ==> !lockFree(t)
  }

  /** The attempts on a file as the run sees them. */
  lemma TriedEnds<D>(e: Engine<D, string>, src: Source, fates: nat -> Fate<D>, attempts: int,
                     before: Database<D>, now: Database<D>, part: seq<Database<D>>, r: Option<Ran>)
    requires Tried(e, src, fates, attempts, before, now, part, r)
    ensures Attempts(e, Load(src), part) && part[0] == before && part[|part| - 1] == now
    ensures r == None <==> attempts <= 0
    ensures r == None ==> now == before
    ensures r.Some? ==> |part| > 1
    ensures r == Some(Applied) ==> CleanFile(e, part[|part| - 2], Load(src)) == Some(now)
  {
    hide Attempts, CleanFile, Load, Verdict, Locked;
  }

  lemma TodoIs<D>(e: Engine<D, string>, sources: seq<Source>, todo: seq<Source>, start: Database<D>)
    requires todo == PendingSources(sources, start.applied)
    ensures LoadAll(todo) == Pending(LoadAll(sources), start.applied)
    ensures Pending(LoadAll(sources), start.applied) == [] <==> todo == []
    ensures CleanRun(e, LoadAll(sources), start) == ApplyAll(e, start, LoadAll(todo))
  {
    PendingLoaded(sources, start.applied);
    assert |LoadAll(todo)| == |todo|;
    hide LoadAll, PendingSources, Pending, ApplyAll;
  }

  lemma NothingRun<D(!new), S>(e: Engine<D, S>, files: seq<File<S>>, start: Database<D>)
    ensures Resumable(e, files, start, start, [start], 0)
  {
    ReachedAtStart(e, files, start);
    ReachedIsResumable(e, files, start, start, [start], 0);
  }

  lemma NoSleep()
    ensures Slept(0) == 0 && Slept(1) == 0
  {
  }

  lemma MoreSleep(n: nat)
    requires n >= 1
    ensures Slept(n + 1) == Slept(n) + Pow2(n)
  {
  }

  /** Every file of the to-do list was applied. */
  ghost predicate AllDone<D, S>(e: Engine<D, S>, files: seq<File<S>>, start: Database<D>, now: Database<D>,
                                trace: seq<Database<D>>, done: nat)
  {
    Reached(e, files, start, now, trace, done) && done == |Pending(files, start.applied)|
  }

  lemma DoneIsAll<D>(e: Engine<D, string>, files: seq<File<string>>, todo: seq<Source>, start: Database<D>,
                     now: Database<D>, trace: seq<Database<D>>, done: nat)
    requires Reached(e, files, start, now, trace, done) && done == |todo|
    requires LoadAll(todo) == Pending(files, start.applied)
    ensures AllDone(e, files, start, now, trace, done)
  {
    hide Reached, Pending;
    assert |LoadAll(todo)| == |todo|;
  }

  /* ---- the runner ---- */

  class Migrator<D(==, !new)> {
    const engine: Engine<D, string>
    var content: D
    var applied: set<string>

    constructor (engine: Engine<D, string>, db: Database<D>)
      ensures Value() == db && this.engine == engine
    {
      this.engine := engine;
      content, applied := db.content, db.applied;
    }

    function Value(): Database<D>
      reads this
    {
      Database(content, applied)
    }

    /** One statement in autocommit. */
    method ExecuteAlone(statement: string, o: Outcome<D>) returns (ok: bool)
      modifies this`content
      ensures ok == (o.Fine? && engine.exec(old(content), statement).Some?)
      ensures ok ==> engine.exec(old(content), statement) == Some(content)
      ensures !ok ==> content == old(content) || engine.torn(old(content), statement, content)
    {
      var next := engine.exec(content, statement);
      if o.Fine? && next.Some? {
        content := next.value;
        return true;
      }
      if !o.Fine? && engine.torn(content, statement, o.left) {
        content := o.left;
      }
      return false;
    }

    method DropInvalidIndexes(o: Outcome<D>) returns (ok: bool)
      modifies this`content
      ensures ok == o.Fine?
      ensures ok ==> content == engine.dropInvalid(old(content))
      ensures !ok ==> content == old(content) || engine.dropTorn(old(content), content)
    {
      if o.Fine? {
        content := engine.dropInvalid(content);
        return true;
      }
      if engine.dropTorn(content, o.left) {
        content := o.left;
      }
      return false;
    }

    /** Statement by statement, nothing undone on the way out. */
    method ApplyAlone(f: File<string>, fate: Fate<D>) returns (r: Ran, ghost end: Option<Ran>)
      requires f.noTx
      modifies this
      ensures end == if !fate.drop.Fine? then Some(Raised(fate.drop))
                     else StatementsEnd(engine, engine.dropInvalid(old(content)), f.statements, fate, false, 0)
      ensures r == Ending(end, fate)
      ensures Leaves(engine, old(Value()), f, end == None && Recorded(fate), Value())
    {
      ghost var start := content;
      var dropped := DropInvalidIndexes(fate.drop);
      if !dropped { return Raised(fate.drop), Some(Raised(fate.drop)); }
      var n := |f.statements|;
      assert LeftAt(engine, start, f, 0, content);
      for i := 0 to n
        invariant applied == old(applied)
        invariant Exec(engine, engine.dropInvalid(start), f.statements[..i]) == Some(content)
        invariant StatementsEnd(engine, content, f.statements, fate, false, i) ==
                  StatementsEnd(engine, engine.dropInvalid(start), f.statements, fate, false, 0)
      {
        var ok := ExecuteAlone(f.statements[i], fate.statement(i));
        if !ok {
          assert LeftAt(engine, start, f, i, content);
          return Raised(fate.statement(i)), Some(Raised(fate.statement(i)));
        }
        ExecSnoc(engine, engine.dropInvalid(start), f.statements, i);
      }
      assert f.statements[..n] == f.statements;
      assert LeftAt(engine, start, f, n, content);
      if Recorded(fate) { applied := applied + {f.version}; }
      return if fate.record.Fine? then Applied else Raised(fate.record), None;
    }

    /** All statements and the record of the version, or nothing. */
    method ApplyTogether(version: string, statements: seq<string>, fate: Fate<D>)
      returns (r: Ran, ghost end: Option<Ran>)
      modifies this
      ensures end == StatementsEnd(engine, old(content), statements, fate, true, 0)
      ensures r == Ending(end, fate)
      ensures Leaves(engine, old(Value()), File(version, false, Unbracketed(statements)),
                     end == None && Recorded(fate), Value())
    {
      var inside, n := content, |statements|;
      for i := 0 to n
        invariant Value() == old(Value())
        invariant Exec(engine, content, Unbracketed(statements[..i])) == Some(inside)
        invariant StatementsEnd(engine, inside, statements, fate, true, i) ==
                  StatementsEnd(engine, content, statements, fate, true, 0)
      {
        UnbracketedSnoc(statements, i);
        if IsBracket(statements[i]) { continue; }
        var next := engine.exec(inside, statements[i]);
        if !fate.statement(i).Fine? || next == None {
          return Raised(fate.statement(i)), Some(Raised(fate.statement(i)));
        }
        ExecAppend(engine, content, Unbracketed(statements[..i]), statements[i]);
        inside := next.value;
      }
      assert statements[..n] == statements;
      if Recorded(fate) { content, applied := inside, applied + {version}; }
      return if fate.record.Fine? then Applied else Raised(fate.record), None;
    }

    /** apply_file: how it ends is the verdict of its fate; it did everything and recorded the
        version, or left what its way of applying allows and recorded nothing. */
    method ApplyFile(src: Source, fate: Fate<D>) returns (r: Ran)
      modifies this
      ensures r == Verdict(engine, old(Value()).content, src, fate)
      ensures Leaves(engine, old(Value()), Load(src), Records(engine, old(Value()).content, src, fate), Value())
      ensures FileAsAnswered(engine, src, fate, old(Value()), Value(), r)
    {
      hide *;
      ghost var before := Value();
      r := ApplyOnce(src, fate);
      FileLaw(engine, src, fate, before, Value());
    }

    method ApplyOnce(src: Source, fate: Fate<D>) returns (r: Ran)
      modifies this
      ensures r == Verdict(engine, old(Value()).content, src, fate)
      ensures Leaves(engine, old(Value()), Load(src), Records(engine, old(Value()).content, src, fate), Value())
    {
      if !fate.connect.Fine? { return Raised(fate.connect); }
      var statements := SplitStatements(src.text);
      ghost var end;
      if Starts(LStrip(src.text), NO_TX) {
        r, end := ApplyAlone(File(Version(src.name), true, statements), fate);
      } else {
        r, end := ApplyTogether(Version(src.name), statements, fate);
      }
    }

    /** The attempts on one file, with growing sleeps between them; r is how the last one ended. */
    method ApplyWithRetry(src: Source, attempts: int, fates: nat -> Fate<D>)
      returns (r: Option<Ran>, slept: nat, ghost part: seq<Database<D>>)
      modifies this
      ensures Tried(engine, src, fates, attempts, old(Value()), Value(), part, r)
      ensures slept == Slept(|part| - 1)
      ensures AsAnswered(engine, src, fates, attempts, old(Value()), Value(), part, r)
    {
      hide *;
      r, slept, part := None, 0, [Value()];
      ghost var before := Value();
      var attempt := 1;
      NothingTried(engine, src, fates, attempts, before);
      if attempts <= 0 { TriedAsAnswered(engine, src, fates, attempts, before, before, part, None); }
      NoSleep();
      while attempt <= attempts
        invariant 1 <= attempt == |part| && (attempt == 1 || attempt <= attempts)
        invariant slept == Slept(attempt) && r == None
        invariant Trying(engine, src, fates, before, Value(), part)
        invariant attempts <= 0 ==> Value() == before && part == [before]
        decreases attempts - attempt
      {
        ghost var now := Value();
        var result := ApplyFile(src, fates(attempt));
        OneMoreTry(engine, src, fates, attempts, before, now, part, result, Value());
        part := part + [Value()];
        if result == Failed(LOCK_NOT_AVAILABLE) && attempt < attempts {
          MoreSleep(attempt);
          slept := slept + Pow2(attempt);
          attempt := attempt + 1;
          continue;
        }
        r := Some(result);
        TriedAsAnswered(engine, src, fates, attempts, before, Value(), part, r);
        return;
      }
    }

    /** run(). `lockFree(t)` says whether the advisory lock is free t seconds after the first try,
        `fates(k)(a)` what happens to attempt a on the k-th file of the to-do list. The code is None
        when the runner dies, and `done` counts the files that were applied. */
    method Run(sources: seq<Source>, statusOnly: bool, attempts: int, lockFree: nat -> bool,
               fates: nat -> nat -> Fate<D>)
      returns (rc: Option<int>, done: nat, ghost trace: seq<Database<D>>)
      modifies this
      // whatever happens
      ensures Resumable(engine, LoadAll(sources), old(Value()), Value(), trace, done)
      ensures statusOnly ==>
                Value() == old(Value()) && rc == Some(if Pending(LoadAll(sources), Value().applied) == [] then 0 else 3)
      ensures !statusOnly && NeverFree(lockFree) ==> Value() == old(Value()) && rc == Some(1)
      ensures !statusOnly && !NeverFree(lockFree) && rc != Some(0) ==>
                attempts > 0 && Stopped(engine, PendingSources(sources, old(Value()).applied), attempts, fates, done,
                                        old(Value()), Value(), trace, rc)
      // code 0
      ensures !statusOnly && !NeverFree(lockFree) && attempts <= 0 ==>
                rc == Some(0) && done == 0 && Value() == old(Value())
      ensures !statusOnly && rc == Some(0) && attempts > 0 ==>
                var todo := PendingSources(sources, old(Value()).applied);
                done == |todo| && Story(engine, todo, attempts, fates, done, old(Value()), Value(), trace)
      ensures !statusOnly && rc == Some(0) ==>
                (Pending(LoadAll(sources), Value().applied) == [] <==>
                 attempts > 0 || Pending(LoadAll(sources), old(Value()).applied) == [])
      ensures !statusOnly && rc == Some(0) && attempts > 0 && DistinctVersions(LoadAll(sources)) &&
              AllRestartable(engine, LoadAll(sources)) ==>
                CleanRun(engine, LoadAll(sources), old(Value())) == Some(Value())
      // nothing goes wrong
      ensures !statusOnly && !NeverFree(lockFree) && attempts > 0 &&
              Undisturbed(PendingSources(sources, old(Value()).applied), fates) &&
              CleanRun(engine, LoadAll(sources), old(Value())).Some? ==>
                rc == Some(0) && CleanRun(engine, LoadAll(sources), old(Value())) == Some(Value())
    {
      hide *;
      ghost var files := LoadAll(sources);
      ghost var start := Value();
      done, trace := 0, [start];
      var todo := ToDo(sources);
      TodoIs(engine, sources, todo, start);
      NothingRun(engine, files, start);
      if statusOnly {
        return Some(if todo != [] then 3 else 0), done, trace;
      }
      var free := WaitForLock(lockFree);
      if !free {
        return Some(1), done, trace;
      }
      todo := ToDo(sources);
      rc, done, trace := RunTodo(todo, attempts, fates, files);
      if rc == Some(0) && attempts > 0 {
        ReachedTheEnd(engine, files, start, Value(), trace, done);
        StoryLeavesNothing(engine, sources, todo, attempts, fates, start, Value(), trace);
      }
    }

    /** pending(). */
    method ToDo(sources: seq<Source>) returns (todo: seq<Source>)
      ensures todo == PendingSources(sources, Value().applied)
    {
      todo := PendingSources(sources, applied);
    }

    /** Asks for the advisory lock every two seconds, for two minutes. */
    method WaitForLock(lockFree: nat -> bool) returns (free: bool)
      ensures free <==> !NeverFree(lockFree)
    {
      var waited := 0;
      while !lockFree(waited)
        invariant waited <= 122 && waited % 2 == 0
        invariant forall t: nat :: t < waited && t % 2 == 0 ==> !lockFree(t)
        decreases 122 - waited
      {
        if waited > 120 { return false; }
        waited := waited + 2;
      }
      return true;
    }

    /** The loop over the to-do list: the first file that fails ends it. */
    method RunTodo(todo: seq<Source>, attempts: int, fates: nat -> nat -> Fate<D>, ghost files: seq<File<string>>)
      returns (rc: Option<int>, done: nat, ghost trace: seq<Database<D>>)
      requires LoadAll(todo) == Pending(files, Value().applied)
      modifies this
      ensures Resumable(engine, files, old(Value()), Value(), trace, done)
      ensures attempts <= 0 ==> rc == Some(0) && done == 0 && Value() == old(Value())
      ensures rc == Some(0) && attempts > 0 ==>
                && AllDone(engine, files, old(Value()), Value(), trace, done)
                && done == |todo| && Story(engine, todo, attempts, fates, done, old(Value()), Value(), trace)
      ensures rc != Some(0) ==>
                attempts > 0 && Stopped(engine, todo, attempts, fates, done, old(Value()), Value(), trace, rc)
      ensures attempts > 0 && Undisturbed(todo, fates) && ApplyAll(engine, old(Value()), LoadAll(todo)).Some? ==>
                rc == Some(0) && ApplyAll(engine, old(Value()), LoadAll(todo)) == Some(Value())
    {
      hide *;
      ghost var start := Value();
      done, trace := 0, [start];
      ReachedAtStart(engine, files, start);
      CourseBegins(engine, todo, fates, start);
      StoryBegins(engine, todo, attempts, fates, start);
      for k := 0 to |todo|
        invariant LoadAll(todo) == Pending(files, start.applied)
        invariant if attempts > 0 then done == k else done == 0 && Value() == start
        invariant Reached(engine, files, start, Value(), trace, done)
        invariant attempts > 0 ==> OnCourse(engine, todo, fates, k, start, Value())
        invariant Story(engine, todo, attempts, fates, done, start, Value(), trace)
      {
        ghost var before := Value();
        var r, _, part := ApplyWithRetry(todo[k], attempts, fates(k));
        TriedEnds(engine, todo[k], fates(k), attempts, before, Value(), part, r);
        if r.Some? {
          NextIsLoaded(files, start, todo, k);
          AfterAttempts(engine, files, Load(todo[k]), start, before, Value(), trace, done, part);
          CourseGoesOn(engine, todo, fates, k, attempts, start, before, Value(), part, r);
          if r != Some(Applied) {
            StopsHere(engine, todo, attempts, fates, k, start, before, Value(), trace, part, r.value);
            trace := Extended(trace, part);
            return CodeOf(r.value), done, trace;
          }
          StoryGoesOn(engine, todo, attempts, fates, k, start, before, Value(), trace, part);
          trace := Extended(trace, part);
          done := done + 1;
        }
      }
      ReachedIsResumable(engine, files, start, Value(), trace, done);
      if attempts > 0 {
        CourseEnds(engine, todo, fates, start, Value());
        DoneIsAll(engine, files, todo, start, Value(), trace, done);
      }
      rc := Some(0);
    }
  }

  /** Code 0 does not mean that nothing is pending: with no attempts, a run that gets the lock
      succeeds with a file still pending, for every file not yet applied. */
  method ZeroAttempts<D(==, !new)>(m: Migrator<D>, src: Source, attempts: int, lockFree: nat -> bool,
                                   fates: nat -> nat -> Fate<D>)
    returns (rc: Option<int>)
    requires attempts <= 0 && lockFree(0) && Version(src.name) !in m.applied
    modifies m
    ensures rc == Some(0) && Pending(LoadAll([src]), m.applied) == LoadAll([src]) != []
  {
    ghost var applied := m.applied;
    var code, _, _ := m.Run([src], false, attempts, lockFree, fates);
    rc := code;
    LoadFirst([src]);
    LoadVersion(src);
    hide Load;
    assert LoadAll([src]) == [Load(src)];
    OnePending(Load(src), applied);
  }
}
