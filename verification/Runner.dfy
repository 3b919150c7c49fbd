/** The forward-only migration runner (app/settle/migrate.py): files applied one by one, either in
    one transaction or statement by statement, and what runs that fail or crash leave for the next.
    D is what the statements change, S a statement. */
module Runner {
  import opened Common

  /** What the database does: `exec` is a statement that completes (None if it fails on these
      contents), `torn` says what a statement that does not complete may leave outside a transaction,
      `dropInvalid` drops the invalid indexes and `dropTorn` says what an unfinished drop may leave. */
  datatype Engine<!D, !S> = Engine(
    exec: (D, S) -> Option<D>,
    torn: (D, S, D) -> bool,
    dropInvalid: D -> D,
    dropTorn: (D, D) -> bool)

  datatype File<S> = File(version: string, noTx: bool, statements: seq<S>)

  datatype Database<D> = Database(content: D, applied: set<string>)

  /* ---- one file ---- */

  function Exec<D, S>(e: Engine<D, S>, d: D, statements: seq<S>): Option<D> {
    if statements == [] then Some(d)
    else
      var d1 := e.exec(d, statements[0]);
      if d1.Some? then Exec(e, d1.value, statements[1..]) else None
  }

  /** What the file does to contents d when nothing goes wrong around it. */
  function Effect<D, S>(e: Engine<D, S>, d: D, f: File<S>): Option<D> {
    Exec(e, if f.noTx then e.dropInvalid(d) else d, f.statements)
  }

  function CleanFile<D, S>(e: Engine<D, S>, db: Database<D>, f: File<S>): Option<Database<D>> {
    var d := Effect(e, db.content, f);
    if d.Some? then Some(Database(d.value, db.applied + {f.version})) else None
  }

  /** The first k statements were executed, and perhaps a part of the next. */
  ghost predicate LeftAt<D, S>(e: Engine<D, S>, d: D, f: File<S>, k: nat, d': D) {
    && k <= |f.statements|
    && var mid := Exec(e, e.dropInvalid(d), f.statements[..k]);
       mid.Some? && (d' == mid.value || (k < |f.statements| && e.torn(mid.value, f.statements[k], d')))
  }

  /** What an application of a no-transaction file that did not finish may leave. */
  ghost predicate Left<D, S>(e: Engine<D, S>, d: D, f: File<S>, d': D) {
    d' == d || e.dropTorn(d, d') || exists k :: LeftAt(e, d, f, k, d')
  }

  /** An application that failed or crashed before it was recorded. */
  ghost predicate Interrupted<D, S>(e: Engine<D, S>, db: Database<D>, f: File<S>, db': Database<D>) {
    db'.applied == db.applied && if f.noTx then Left(e, db.content, f, db'.content) else db'.content == db.content
  }

  /** A no-transaction file may be started again after any executed prefix, whole statements and
      parts of one: what it does in the end is the same. */
  ghost predicate Restartable<D(!new), S>(e: Engine<D, S>, f: File<S>) {
    f.noTx ==> forall d, d' :: Left(e, d, f, d') ==> Effect(e, d', f) == Effect(e, d, f)
  }

  /* ---- runs ---- */

  function Pending<S>(files: seq<File<S>>, applied: set<string>): seq<File<S>> {
    if files == [] then []
    else (if files[0].version in applied then [] else [files[0]]) + Pending(files[1..], applied)
  }

  /** Apply the files of a to-do list, in order. */
  function ApplyAll<D, S>(e: Engine<D, S>, db: Database<D>, todo: seq<File<S>>): Option<Database<D>>
    decreases |todo|
  {
    if todo == [] then Some(db)
    else
      var db1 := CleanFile(e, db, todo[0]);
      if db1.Some? then ApplyAll(e, db1.value, todo[1..]) else None
  }

  /** One run in which nothing goes wrong. */
  function CleanRun<D, S>(e: Engine<D, S>, files: seq<File<S>>, db: Database<D>): Option<Database<D>> {
    ApplyAll(e, db, Pending(files, db.applied))
  }

  /** One step of any run: the first pending file is applied, or fails. */
  ghost predicate Step<D, S>(e: Engine<D, S>, files: seq<File<S>>, db: Database<D>, db': Database<D>) {
    var todo := Pending(files, db.applied);
    todo != [] && (CleanFile(e, db, todo[0]) == Some(db') || Interrupted(e, db, todo[0], db'))
  }

  /** Any runs, one after the other: failed, crashed or successful. */
  ghost predicate IsTrace<D, S>(e: Engine<D, S>, files: seq<File<S>>, trace: seq<Database<D>>) {
    trace != [] && forall i :: 0 < i < |trace| ==> Step(e, files, trace[i - 1], trace[i])
  }

  ghost predicate DistinctVersions<S>(files: seq<File<S>>) {
    forall i, j :: 0 <= i < j < |files| ==> files[i].version != files[j].version
  }

  ghost predicate AllRestartable<D(!new), S>(e: Engine<D, S>, files: seq<File<S>>) {
    forall f :: f in files ==> Restartable(e, f)
  }

  lemma {:induction false} PendingAreFiles<S>(files: seq<File<S>>, applied: set<string>)
    ensures forall f :: f in Pending(files, applied) <==> f in files && f.version !in applied
  {
    if files != [] { PendingAreFiles(files[1..], applied); }
  }

  lemma {:induction false} PendingWithout<S>(files: seq<File<S>>, applied: set<string>, v: string)
    requires forall f :: f in files ==> f.version != v
    ensures Pending(files, applied + {v}) == Pending(files, applied)
  {
    if files != [] { PendingWithout(files[1..], applied, v); }
  }

  /** Applying the first pending file leaves the others pending. */
  lemma {:induction false} PendingAfterFirst<S>(files: seq<File<S>>, applied: set<string>)
    requires DistinctVersions(files) && Pending(files, applied) != []
    ensures var todo := Pending(files, applied);
            Pending(files, applied + {todo[0].version}) == todo[1..]
  {
    assert DistinctVersions(files[1..]);
    var todo := Pending(files, applied);
    if files[0].version in applied {
      assert todo == Pending(files[1..], applied);
      PendingAfterFirst(files[1..], applied);
    } else {
      assert todo[0] == files[0] && todo[1..] == Pending(files[1..], applied);
      PendingWithout(files[1..], applied, files[0].version);
    }
  }

  /** No step changes what one clean run from here would leave. */
  lemma StepKeepsOutcome<D(!new), S>(e: Engine<D, S>, files: seq<File<S>>, db: Database<D>, db': Database<D>)
    requires DistinctVersions(files) && AllRestartable(e, files) && Step(e, files, db, db')
    ensures CleanRun(e, files, db') == CleanRun(e, files, db)
  {
    var todo := Pending(files, db.applied);
    PendingAreFiles(files, db.applied);
    assert todo[0] in todo;
    if CleanFile(e, db, todo[0]) == Some(db') {
      PendingAfterFirst(files, db.applied);
    } else {
      assert Effect(e, db'.content, todo[0]) == Effect(e, db.content, todo[0]);
    }
  }

  /** The resume theorem: after any failed and crashed runs, a run that ends with nothing pending
      leaves the database that one clean run would have left at the start; and wherever they have
      got to, one clean run from there does as well. */
  lemma {:induction false} Resume<D(!new), S>(e: Engine<D, S>, files: seq<File<S>>, trace: seq<Database<D>>)
    requires DistinctVersions(files) && AllRestartable(e, files) && IsTrace(e, files, trace)
    ensures CleanRun(e, files, trace[|trace| - 1]) == CleanRun(e, files, trace[0])
    ensures Pending(files, trace[|trace| - 1].applied) == [] ==>
              CleanRun(e, files, trace[0]) == Some(trace[|trace| - 1])
    decreases |trace|
  {
    if |trace| > 1 {
      var init := trace[..|trace| - 1];
      assert IsTrace(e, files, init);
      Resume(e, files, init);
      StepKeepsOutcome(e, files, trace[|trace| - 2], trace[|trace| - 1]);
    }
  }

  ghost predicate OneFileResumes<D(!new), S>(e: Engine<D, S>, f: File<S>) {
    forall db: Database<D>, db': Database<D> :: f.version !in db.applied && Step(e, [f], db, db') ==>
                        CleanRun(e, [f], db') == CleanRun(e, [f], db)
  }

  /** The hypothesis is exact: a file can be resumed from every state a failure leaves if and only
      if it is restartable. */
  lemma RestartableIsExact<D(!new), S>(e: Engine<D, S>, f: File<S>)
    ensures OneFileResumes(e, f) <==> Restartable(e, f)
  {
    if Restartable(e, f) {
      forall db: Database<D>, db': Database<D> | f.version !in db.applied && Step(e, [f], db, db')
        ensures CleanRun(e, [f], db') == CleanRun(e, [f], db)
      {
        StepKeepsOutcome(e, [f], db, db');
      }
    }
    if OneFileResumes(e, f) && f.noTx {
      forall d, d' | Left(e, d, f, d')
        ensures Effect(e, d', f) == Effect(e, d, f)
      {
        var db, db' := Database(d, {}), Database(d', {});
        OnePending(f, {});
        assert Interrupted(e, db, f, db');
        assert Step(e, [f], db, db');
        OneCleanRun(e, f, db);
        OneCleanRun(e, f, db');
      }
    }
  }

  lemma OnePending<S>(f: File<S>, applied: set<string>)
    requires f.version !in applied
    ensures Pending([f], applied) == [f]
  {
    assert [f][1..] == [];
  }

  lemma OneCleanRun<D, S>(e: Engine<D, S>, f: File<S>, db: Database<D>)
    requires f.version !in db.applied
    ensures CleanRun(e, [f], db) == CleanFile(e, db, f)
  {
    OnePending(f, db.applied);
    var db1 := CleanFile(e, db, f);
    assert db1.Some? ==> ApplyAll(e, db1.value, [f][1..]) == db1;
  }

  lemma StepRecords<D, S>(e: Engine<D, S>, files: seq<File<S>>, db: Database<D>, db': Database<D>)
    requires Step(e, files, db, db')
    ensures db.applied <= db'.applied
  {
  }

  lemma {:induction false} RecordsStay<D, S>(e: Engine<D, S>, files: seq<File<S>>, trace: seq<Database<D>>,
                                             a: nat, b: nat)
    requires IsTrace(e, files, trace) && a <= b < |trace|
    ensures trace[a].applied <= trace[b].applied
    decreases b
  {
    if a < b {
      RecordsStay(e, files, trace, a, b - 1);
      StepRecords(e, files, trace[b - 1], trace[b]);
    }
  }

  /** Distinct versions are needed: once a version is recorded, no file of that version is in any
      later to-do list, whatever steps follow, though both files i and j of one version were in the
      list at the start. */
  lemma SameVersionIsSkipped<D, S>(e: Engine<D, S>, files: seq<File<S>>, i: nat, j: nat,
                                   trace: seq<Database<D>>, a: nat, b: nat)
    requires IsTrace(e, files, trace) && a <= b < |trace|
    requires i < j < |files| && files[i].version == files[j].version
    requires files[i].version !in trace[0].applied && files[i].version in trace[a].applied
    ensures files[i] in Pending(files, trace[0].applied) && files[j] in Pending(files, trace[0].applied)
    ensures forall f :: f in Pending(files, trace[b].applied) ==> f.version != files[j].version
  {
    RecordsStay(e, files, trace, a, b);
    hide *;
    IsPending(files, i, trace[0].applied);
    IsPending(files, j, trace[0].applied);
    NotPending(files, files[j].version, trace[b].applied);
  }

  lemma IsPending<S>(files: seq<File<S>>, i: nat, applied: set<string>)
    requires i < |files| && files[i].version !in applied
    ensures files[i] in Pending(files, applied)
  {
    PendingAreFiles(files, applied);
    hide Pending;
    assert files[i] in files;
  }

  lemma {:induction false} NotPending<S>(files: seq<File<S>>, version: string, applied: set<string>)
    requires version in applied
    ensures forall f :: f in Pending(files, applied) ==> f.version != version
  {
    if files != [] { NotPending(files[1..], version, applied); }
  }

  /** Only the first file of each version; versions in `seen` do not count as new. */
  function Firsts<S>(files: seq<File<S>>, seen: set<string>): seq<File<S>> {
    if files == [] then []
    else if files[0].version in seen then Firsts(files[1..], seen)
    else [files[0]] + Firsts(files[1..], seen + {files[0].version})
  }

  lemma {:induction false} FirstsAreFiles<S>(files: seq<File<S>>, seen: set<string>)
    ensures forall f :: f in Firsts(files, seen) ==> f in files && f.version !in seen
    ensures DistinctVersions(Firsts(files, seen))
  {
    if files != [] {
      var f, rest := files[0], files[1..];
      if f.version in seen {
        FirstsAreFiles(rest, seen);
      } else {
        FirstsAreFiles(rest, seen + {f.version});
        DistinctWith(f, Firsts(rest, seen + {f.version}));
      }
    }
  }

  lemma DistinctWith<S>(f: File<S>, files: seq<File<S>>)
    requires DistinctVersions(files) && forall g :: g in files ==> g.version != f.version
    ensures DistinctVersions([f] + files)
  {
    var all := [f] + files;
    forall i, j | 0 <= i < j < |all|
      ensures all[i].version != all[j].version
    {
      assert all[j] == files[j - 1];
      if i > 0 { assert all[i] == files[i - 1]; }
    }
  }

  /** The first pending file is the same, with and without later files of the same versions. */
  lemma {:induction false} SameFirstPending<S>(files: seq<File<S>>, seen: set<string>, applied: set<string>)
    requires seen <= applied
    ensures var a, b := Pending(files, applied), Pending(Firsts(files, seen), applied);
            (a == [] <==> b == []) && (a != [] ==> a[0] == b[0])
  {
    if files != [] {
      var f, rest := files[0], files[1..];
      if f.version in seen {
        SameFirstPending(rest, seen, applied);
      } else {
        PendingOne(f, Firsts(rest, seen + {f.version}), applied);
        if f.version in applied { SameFirstPending(rest, seen + {f.version}, applied); }
      }
    }
  }

  lemma PendingOne<S>(f: File<S>, files: seq<File<S>>, applied: set<string>)
    ensures Pending([f] + files, applied) ==
            if f.version in applied then Pending(files, applied) else [f] + Pending(files, applied)
  {
    assert ([f] + files)[1..] == files;
  }

  lemma FirstsTrace<D, S>(e: Engine<D, S>, files: seq<File<S>>, trace: seq<Database<D>>)
    requires IsTrace(e, files, trace)
    ensures IsTrace(e, Firsts(files, {}), trace)
  {
    forall i | 0 < i < |trace|
      ensures Step(e, Firsts(files, {}), trace[i - 1], trace[i])
    {
      assert Step(e, files, trace[i - 1], trace[i]);
      hide CleanFile, Interrupted, Pending, Firsts;
      SameFirstPending(files, {}, trace[i - 1].applied);
    }
  }

  /** Resuming whatever the versions. Steps that recompute the to-do list, as runs do that die behind
      each file, lead to what one clean run of the first files of each version leaves. So they lead to
      what one clean run of all files leaves if and only if the later files of a version make no
      difference to a clean run. */
  lemma ResumeWithEqualVersions<D(!new), S>(e: Engine<D, S>, files: seq<File<S>>, trace: seq<Database<D>>)
    requires AllRestartable(e, files) && IsTrace(e, files, trace)
    requires Pending(files, trace[|trace| - 1].applied) == []
    ensures CleanRun(e, Firsts(files, {}), trace[0]) == Some(trace[|trace| - 1])
    ensures CleanRun(e, files, trace[0]) == Some(trace[|trace| - 1]) <==>
              CleanRun(e, files, trace[0]) == CleanRun(e, Firsts(files, {}), trace[0])
  {
    FirstsTrace(e, files, trace);
    FirstsAreFiles(files, {});
    SameFirstPending(files, {}, trace[|trace| - 1].applied);
    hide Firsts, Pending, IsTrace, CleanRun;
    assert AllRestartable(e, Firsts(files, {}));
    Resume(e, Firsts(files, {}), trace);
  }

  /** After a crash behind the first of two files of one version nothing is pending; what is there is
      what a clean run would leave if and only if the second changes nothing behind the first. */
  lemma SecondIsNeverApplied<D, S>(e: Engine<D, S>, first: File<S>, second: File<S>, db: Database<D>)
    requires first.version == second.version && first.version !in db.applied
    requires CleanFile(e, db, first).Some?
    ensures var db1 := CleanFile(e, db, first).value;
            && Step(e, [first, second], db, db1)
            && Pending([first, second], db1.applied) == []
            && CleanRun(e, [first, second], db) == CleanFile(e, db1, second)
            && (CleanRun(e, [first, second], db) == Some(db1) <==>
                Effect(e, db1.content, second) == Some(db1.content))
  {
    var files := [first, second];
    assert files[1..] == [second];
    assert Pending([second], db.applied) == [second];
    assert Pending(files, db.applied) == files;
    var db1 := CleanFile(e, db, first).value;
    assert Pending([second], db1.applied) == [];
    assert ApplyAll(e, db1, [second]) == CleanFile(e, db1, second);
    assert db1.applied + {second.version} == db1.applied;
  }

  lemma {:induction false} ExecSnoc<D, S>(e: Engine<D, S>, d: D, statements: seq<S>, k: nat)
    requires k < |statements|
    ensures var mid := Exec(e, d, statements[..k]);
            Exec(e, d, statements[..k + 1]) == if mid.Some? then e.exec(mid.value, statements[k]) else None
    decreases k
  {
    if k > 0 {
      assert statements[..k][1..] == statements[1..][..k - 1];
      assert statements[..k + 1][1..] == statements[1..][..k];
      var d1 := e.exec(d, statements[0]);
      if d1.Some? { ExecSnoc(e, d1.value, statements[1..], k - 1); }
    } else {
      assert statements[..1][1..] == [];
    }
  }

  /** Statements are executed one after the other, in order: none executes nothing, one what the
      database does, and two lists the second behind the first. */
  lemma {:induction false} ExecInOrder<D, S>(e: Engine<D, S>, d: D, a: seq<S>, b: seq<S>)
    ensures Exec(e, d, []) == Some(d)
    ensures forall s :: Exec(e, d, [s]) == e.exec(d, s)
    ensures var mid := Exec(e, d, a); Exec(e, d, a + b) == if mid.Some? then Exec(e, mid.value, b) else None
    decreases |a|
  {
    forall s
      ensures Exec(e, d, [s]) == e.exec(d, s)
    {
      var d1 := e.exec(d, s);
      assert d1.Some? ==> Exec(e, d1.value, [s][1..]) == d1;
    }
    if a == [] {
      assert a + b == b;
    } else {
      assert (a + b)[1..] == a[1..] + b;
      var d1 := e.exec(d, a[0]);
      if d1.Some? { ExecInOrder(e, d1.value, a[1..], b); }
    }
  }

  lemma PendingSmall<S>(f: File<S>, applied: set<string>)
    ensures Pending<S>([], applied) == []
    ensures Pending([f], applied) == if f.version in applied then [] else [f]
  {
    assert [f][1..] == [];
  }

  lemma Assoc<T>(a: seq<T>, b: seq<T>, c: seq<T>)
    ensures a + (b + c) == (a + b) + c
  {
  }

  /** The to-do list holds exactly the files whose version is not recorded, in their order. */
  lemma {:induction false} PendingInOrder<S>(a: seq<File<S>>, f: File<S>, b: seq<File<S>>, applied: set<string>)
    ensures Pending<S>([], applied) == []
    ensures Pending([f], applied) == if f.version in applied then [] else [f]
    ensures Pending(a + b, applied) == Pending(a, applied) + Pending(b, applied)
  {
    hide Pending;
    PendingSmall(f, applied);
    if a == [] {
      assert a + b == b;
      assert [] + Pending(b, applied) == Pending(b, applied);
    } else {
      var first, rest := a[0], a[1..];
      PendingInOrder(rest, f, b, applied);
      Assoc([first], rest, b);
      assert a == [first] + rest;
      PendingOne(first, rest + b, applied);
      PendingOne(first, rest, applied);
      Assoc([first], Pending(rest, applied), Pending(b, applied));
    }
  }

  lemma ExecAppend<D, S>(e: Engine<D, S>, d: D, statements: seq<S>, last: S)
    ensures var mid := Exec(e, d, statements);
            Exec(e, d, statements + [last]) == if mid.Some? then e.exec(mid.value, last) else None
  {
    var all := statements + [last];
    assert all[..|statements|] == statements && all[..|statements| + 1] == all;
    ExecSnoc(e, d, all, |statements|);
  }
}
