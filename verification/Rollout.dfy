/** The expand migrations beside a running application: single statements, index builds that take
    time and single batches of the backfill interleave with the writes of both versions, and the
    runner may stop between any two of them (migrations/0009, 0010 and 0011, app/settle/migrate.py). */
module Rollout {
  import opened Common
  import opened Runner
  import opened Migrations
  import ColumnSync

  /** Where the runner stands: between files, dropping invalid indexes, before a statement of a
      no-transaction file, or waiting for an index build. */
  datatype Pc =
    | Idle
    | Dropping(file: File<Command>)
    | At(file: File<Command>, next: nat)
    | Building(file: File<Command>, next: nat)

  datatype World = World(db: Database<Schema>, pc: Pc)

  datatype Event =
    | ByApp(write: ColumnSync.Write, keys: map<nat, string>)   // a write of either version
    | Commit                                  // a transactional file, as a whole
    | Begin                                   // a no-transaction file
    | Drop(key: bool)                         // of the invalid key index or the invalid state index
    | Start                                   // its statements, with no invalid index left
    | Timeout                                 // SET
    | Build                                   // a concurrent index, unless it exists
    | Finish                                  // the build is through
    | Batch(locked: set<nat>, ids: set<nat>)  // of the backfill; an empty one ends it
    | Record                                  // the version
    | Stop                                    // a failure or a crash

  function Head(db: Database<Schema>): Option<File<Command>> {
    var todo := Pending(EXPAND, db.applied);
    if todo == [] then None else Some(todo[0])
  }

  /** The statement the runner is about to execute. */
  function Here(w: World): Option<Command> {
    if w.pc.At? && w.pc.next < |w.pc.file.statements| then Some(w.pc.file.statements[w.pc.next]) else None
  }

  function IndexOf(d: Schema, key: bool): Index {
    if key then d.keyIndex else d.stateIndex
  }

  function WithIndex(d: Schema, key: bool, i: Index): Schema {
    if key then d.(keyIndex := i) else d.(stateIndex := i)
  }

  /** The build the runner waits for is of the key index. */
  predicate BuildsKey(w: World) {
    w.pc.Building? && w.pc.next < |w.pc.file.statements| && w.pc.file.statements[w.pc.next] == BuildKeyIndex
  }

  ghost predicate CanHappen(w: World, e: Event) {
    var d := w.db.content;
    match e
    case ByApp(_, keys) => d.keyIndex == Valid ==> UniqueKeys(keys)
    case Commit =>
      w.pc.Idle? && Head(w.db).Some? && !Head(w.db).value.noTx && CleanFile(ENGINE, w.db, Head(w.db).value).Some?
    case Begin => w.pc.Idle? && Head(w.db).Some? && Head(w.db).value.noTx
    case Drop(key) => w.pc.Dropping? && IndexOf(d, key) == Invalid
    case Start => w.pc.Dropping? && d.stateIndex != Invalid && d.keyIndex != Invalid
    case Timeout => Here(w) == Some(SetTimeout)
    case Build => Here(w) == Some(BuildStateIndex) || Here(w) == Some(BuildKeyIndex)
    case Finish => w.pc.Building? && (BuildsKey(w) ==> UniqueKeys(d.keys))
    case Batch(locked, ids) =>
      && Here(w) == Some(Backfill)
      && var free := ColumnSync.NullRows(d.table) - locked;
         ids <= free && |ids| <= ColumnSync.BATCH && (|ids| < ColumnSync.BATCH ==> ids == free)
    case Record => w.pc.At? && w.pc.next == |w.pc.file.statements|
    case Stop => true
  }

  function WithContent(w: World, d: Schema, pc: Pc): World {
    World(w.db.(content := d), pc)
  }

  function Happen(w: World, e: Event): World
    requires CanHappen(w, e)
  {
    var d := w.db.content;
    match e
    case ByApp(write, keys) => WithContent(w, d.(table := ColumnSync.Apply(d.table, write), keys := keys), w.pc)
    case Commit => World(CleanFile(ENGINE, w.db, Head(w.db).value).value, Idle)
    case Begin => World(w.db, Dropping(Head(w.db).value))
    case Drop(key) => WithContent(w, WithIndex(d, key, Absent), w.pc)
    case Start => World(w.db, At(w.pc.file, 0))
    case Timeout => World(w.db, At(w.pc.file, w.pc.next + 1))
    case Build =>
      var key := Here(w) == Some(BuildKeyIndex);
      if IndexOf(d, key) == Absent then WithContent(w, WithIndex(d, key, Invalid), Building(w.pc.file, w.pc.next))
      else World(w.db, At(w.pc.file, w.pc.next + 1))
    case Finish => WithContent(w, WithIndex(d, BuildsKey(w), Valid), At(w.pc.file, w.pc.next + 1))
    case Batch(_, ids) =>
      if ids == {} then World(w.db, At(w.pc.file, w.pc.next + 1))
      else WithContent(w, d.(table := ColumnSync.Filled(d.table, ids)), w.pc)
    case Record => World(w.db.(applied := w.db.applied + {w.pc.file.version}), Idle)
    case Stop => World(w.db, Idle)
  }

  ghost predicate IsHistory(w: World, events: seq<Event>)
    decreases |events|
  {
    events == [] || (CanHappen(w, events[0]) && IsHistory(Happen(w, events[0]), events[1..]))
  }

  function AfterAll(w: World, events: seq<Event>): World
    requires IsHistory(w, events)
    decreases |events|
  {
    if events == [] then w else AfterAll(Happen(w, events[0]), events[1..])
  }

  /* ---- the invariant ---- */

  /** What a recorded version promises, and what the indexes and the check promise, from 0008 on. */
  ghost predicate Promised(db: Database<Schema>) {
    var d := db.content;
    && d.expanded && ColumnSync.TableSynced(d.table)
    && ("0009" in db.applied ==> d.stateIndex == Valid && d.keyIndex == Valid)
    && (d.keyIndex == Valid ==> UniqueKeys(d.keys))
    && ("0011" in db.applied ==> d.table.check.Valid?)
    && (d.table.check.Valid? ==> ColumnSync.NullRows(d.table) == {})
  }

  predicate Open(db: Database<Schema>, f: File<Command>) {
    && (f == F0009 || f == F0010) && f.version !in db.applied
    && (f == F0010 ==> "0009" in db.applied)
  }

  /** The indexes before statement k of 0009. */
  predicate Stage(d: Schema, k: nat) {
    && (k <= 3 ==> d.stateIndex != Invalid && d.keyIndex != Invalid)
    && (k >= 3 ==> d.stateIndex == Valid)
    && (k >= 4 ==> d.keyIndex == Valid)
  }

  predicate PcOk(w: World) {
    var d := w.db.content;
    match w.pc
    case Idle => true
    case Dropping(f) => Open(w.db, f)
    case At(f, k) => Open(w.db, f) && k <= |f.statements| && (f == F0009 ==> Stage(d, k))
    case Building(f, k) =>
      && Open(w.db, f) && f == F0009
      && ((k == 2 && d.stateIndex == Invalid && d.keyIndex != Invalid)
          || (k == 3 && d.stateIndex == Valid && d.keyIndex == Invalid))
  }

  ghost predicate Inv(w: World) {
    Promised(w.db) && PcOk(w)
  }

  lemma HeadIs(db: Database<Schema>)
    ensures Head(db) == if "0008" !in db.applied then Some(F0008)
                        else if "0009" !in db.applied then Some(F0009)
                        else if "0010" !in db.applied then Some(F0010)
                        else if "0011" !in db.applied then Some(F0011) else None
    ensures "0008" in db.applied && "0009" in db.applied && "0010" in db.applied ==>
              Pending(EXPAND, db.applied) == if "0011" in db.applied then [] else [F0011]
  {
    var applied := db.applied;
    assert EXPAND == [F0008] + [F0009, F0010, F0011];
    assert [F0009, F0010, F0011] == [F0009] + [F0010, F0011];
    assert [F0010, F0011] == [F0010] + [F0011];
    assert [F0011] == [F0011] + [];
    assert Pending<Command>([], applied) == [];
    PendingOne(F0011, [], applied);
    PendingOne(F0010, [F0011], applied);
    PendingOne(F0009, [F0010, F0011], applied);
    PendingOne(F0008, [F0009, F0010, F0011], applied);
  }

  lemma FillKeepsSynced(t: ColumnSync.Table, ids: set<nat>)
    requires ColumnSync.TableSynced(t) && ids <= ColumnSync.NullRows(t)
    ensures ColumnSync.TableSynced(ColumnSync.Filled(t, ids)) && ColumnSync.Filled(t, ids).check == t.check
    ensures ColumnSync.NullRows(ColumnSync.Filled(t, ids)) <= ColumnSync.NullRows(t)
  {
  }

  lemma WriteKeeps(w: World, e: Event)
    requires Inv(w) && CanHappen(w, e) && e.ByApp?
    ensures Inv(Happen(w, e))
  {
    ColumnSync.OneEvent(w.db.content.table, ColumnSync.By(e.write));
    hide ColumnSync.NullRows, ColumnSync.TableSynced, ColumnSync.Apply;
  }

  lemma CommitKeeps(w: World)
    requires Inv(w) && CanHappen(w, Commit)
    ensures Inv(Happen(w, Commit))
  {
    var d := w.db.content;
    HeadIs(w.db);
    Effect0008(d);
    Effect0011(d);
    assert ColumnSync.NullRows(d.table.(check := ColumnSync.Valid)) == ColumnSync.NullRows(d.table);
    hide Effect, ENGINE, ColumnSync.NullRows, Head;
  }

  lemma BatchKeeps(w: World, e: Event)
    requires Inv(w) && CanHappen(w, e) && e.Batch?
    ensures Inv(Happen(w, e))
  {
    FillKeepsSynced(w.db.content.table, e.ids);
    hide ColumnSync.NullRows, ColumnSync.TableSynced, ColumnSync.Filled;
  }

  lemma RunnerKeeps(w: World, e: Event)
    requires Inv(w) && CanHappen(w, e) && !e.ByApp? && !e.Commit? && !e.Batch?
    ensures Inv(Happen(w, e))
  {
    HeadIs(w.db);
    hide ColumnSync.NullRows, ColumnSync.TableSynced, Head, UniqueKeys;
  }

  lemma EventKeeps(w: World, e: Event)
    requires Inv(w) && CanHappen(w, e)
    ensures Inv(Happen(w, e))
  {
    hide Inv, CanHappen, Happen;
    if e.ByApp? {
      WriteKeeps(w, e);
    } else if e.Commit? {
      CommitKeeps(w);
    } else if e.Batch? {
      BatchKeeps(w, e);
    } else {
      RunnerKeeps(w, e);
    }
  }

  lemma {:induction false} HistoryKeeps(w: World, events: seq<Event>)
    requires Inv(w) && IsHistory(w, events)
    ensures Inv(AfterAll(w, events))
    decreases |events|
  {
    if events != [] {
      hide Inv, CanHappen, Happen;
      EventKeeps(w, events[0]);
      HistoryKeeps(Happen(w, events[0]), events[1..]);
    }
  }

  /* ---- the theorems ---- */

  lemma NoNullsAgree(t: ColumnSync.Table)
    requires ColumnSync.TableSynced(t) && ColumnSync.NullRows(t) == {}
    ensures forall id :: id in t.rows ==> ColumnSync.Agrees(t.rows[id])
  {
    assert forall id :: id in t.rows ==> id !in ColumnSync.NullRows(t);
  }

  /** Whenever 0009 is recorded, both concurrent indexes are valid, and no key is repeated; whenever
      0011 is recorded, both columns agree on every row: whatever writes of both versions come between
      any two statements, during index builds and between batches, and wherever runs fail or die. */
  lemma RecordedMeansDone(db: Database<Schema>, events: seq<Event>)
    requires Promised(db) && IsHistory(World(db, Idle), events)
    ensures var db' := AfterAll(World(db, Idle), events).db;
            && Promised(db')
            && ("0009" in db'.applied ==>
                  db'.content.stateIndex == Valid && db'.content.keyIndex == Valid && UniqueKeys(db'.content.keys))
            && ("0011" in db'.applied ==>
                  forall id :: id in db'.content.table.rows ==> ColumnSync.Agrees(db'.content.table.rows[id]))
  {
    var w := World(db, Idle);
    HistoryKeeps(w, events);
    var db' := AfterAll(w, events).db;
    hide IsHistory, AfterAll, UniqueKeys, ColumnSync.TableSynced, ColumnSync.NullRows, ColumnSync.Agrees;
    if "0011" in db'.applied { NoNullsAgree(db'.content.table); }
  }

  /** With 0008 to 0010 recorded, after any history, the next run can do all that is pending if and
      only if no state is NULL; and then the check is valid. */
  lemma CodeIffFilled(db: Database<Schema>, events: seq<Event>)
    requires Promised(db) && IsHistory(World(db, Idle), events)
    requires var applied := AfterAll(World(db, Idle), events).db.applied;
             "0008" in applied && "0009" in applied && "0010" in applied
    ensures var db' := AfterAll(World(db, Idle), events).db;
            var end := CleanRun(ENGINE, EXPAND, db');
            && (end.Some? <==> ColumnSync.NullRows(db'.content.table) == {})
            && (end.Some? ==> "0011" in end.value.applied && end.value.content.table.check.Valid?)
  {
    var w := World(db, Idle);
    HistoryKeeps(w, events);
    var db' := AfterAll(w, events).db;
    hide IsHistory, AfterAll;
    LastRun(db');
  }

  lemma LastRun(db: Database<Schema>)
    requires Promised(db) && "0008" in db.applied && "0009" in db.applied && "0010" in db.applied
    ensures var end := CleanRun(ENGINE, EXPAND, db);
            && (end.Some? <==> ColumnSync.NullRows(db.content.table) == {})
            && (end.Some? ==> "0011" in end.value.applied && end.value.content.table.check.Valid?)
  {
    HeadIs(db);
    Effect0011(db.content);
    hide Effect, ENGINE, ColumnSync.NullRows, Head;
    if "0011" !in db.applied {
      var after := CleanFile(ENGINE, db, F0011);
      assert [F0011][1..] == [];
      assert after.Some? ==> ApplyAll(ENGINE, after.value, []) == after;
    }
  }

  /** The backfill skips locked rows, and its version is recorded all the same: with every NULL row
      locked by others, 0010 runs through and is recorded with all of them still NULL. */
  lemma RecordedWithNulls(db: Database<Schema>, locked: set<nat>)
    requires Promised(db) && ColumnSync.NullRows(db.content.table) <= locked
    requires "0008" in db.applied && "0009" in db.applied && "0010" !in db.applied
    ensures var events := [Begin, Start, Timeout, Timeout, Batch(locked, {}), Record];
            && IsHistory(World(db, Idle), events)
            && AfterAll(World(db, Idle), events) == World(db.(applied := db.applied + {"0010"}), Idle)
  {
    HeadIs(db);
    hide Head;
    var w0 := World(db, Idle);
    var w1, w2 := World(db, Dropping(F0010)), World(db, At(F0010, 0));
    var w3, w4 := World(db, At(F0010, 1)), World(db, At(F0010, 2));
    var w5 := World(db, At(F0010, 3));
    var w6 := World(db.(applied := db.applied + {"0010"}), Idle);
    assert ColumnSync.NullRows(db.content.table) - locked == {};
    OneEvent(w0, Begin, w1, [Start, Timeout, Timeout, Batch(locked, {}), Record], w6) by {
      OneEvent(w1, Start, w2, [Timeout, Timeout, Batch(locked, {}), Record], w6) by {
        OneEvent(w2, Timeout, w3, [Timeout, Batch(locked, {}), Record], w6) by {
          OneEvent(w3, Timeout, w4, [Batch(locked, {}), Record], w6) by {
            OneEvent(w4, Batch(locked, {}), w5, [Record], w6) by {
              OneEvent(w5, Record, w6, [], w6);
            }
          }
        }
      }
    }
  }

  lemma OneEvent(w: World, e: Event, next: World, rest: seq<Event>, end: World)
    requires CanHappen(w, e) && Happen(w, e) == next
    requires IsHistory(next, rest) && AfterAll(next, rest) == end
    ensures IsHistory(w, [e] + rest) && AfterAll(w, [e] + rest) == end
  {
    hide CanHappen, Happen;
    assert ([e] + rest)[1..] == rest;
  }

  lemma StuckStep(w: World, e: Event)
    requires Inv(w) && CanHappen(w, e) && !e.ByApp?
    requires "0010" in w.db.applied && ColumnSync.NullRows(w.db.content.table) != {}
    ensures var w' := Happen(w, e);
            && "0010" in w'.db.applied && "0011" !in w'.db.applied
            && ColumnSync.NullRows(w'.db.content.table) == ColumnSync.NullRows(w.db.content.table)
  {
    HeadIs(w.db);
    Effect0008(w.db.content);
    Effect0011(w.db.content);
    hide Effect, ENGINE, Head, ColumnSync.TableSynced, UniqueKeys;
  }

  /** Then no run gets further: with 0010 recorded and a state NULL, whatever runners do and however
      often they try, the same states stay NULL and 0011 is not recorded. Only the application's own
      writes can fill them. */
  lemma {:induction false} OnlyWritesUnblock(w: World, events: seq<Event>)
    requires Inv(w) && IsHistory(w, events) && forall e :: e in events ==> !e.ByApp?
    requires "0010" in w.db.applied && ColumnSync.NullRows(w.db.content.table) != {}
    ensures var w' := AfterAll(w, events);
            && "0010" in w'.db.applied && "0011" !in w'.db.applied
            && ColumnSync.NullRows(w'.db.content.table) == ColumnSync.NullRows(w.db.content.table)
    decreases |events|
  {
    hide CanHappen, Happen, ColumnSync.NullRows;
    if events != [] {
      assert events[0] in events;
      StuckStep(w, events[0]);
      EventKeeps(w, events[0]);
      hide Inv;
      OnlyWritesUnblock(Happen(w, events[0]), events[1..]);
    }
  }

  /* ---- a runner that is left alone gets through ---- */

  /** From w on, some history of runner steps alone leads to `end`. */
  ghost predicate Leads(w: World, end: World) {
    exists events :: LeadsBy(w, events, end)
  }

  ghost predicate LeadsBy(w: World, events: seq<Event>, end: World) {
    && (forall e :: e in events ==> !e.ByApp? && !e.Stop?)
    && IsHistory(w, events) && AfterAll(w, events) == end
  }

  lemma Then(w: World, e: Event, next: World, end: World)
    requires CanHappen(w, e) && Happen(w, e) == next && !e.ByApp? && !e.Stop? && Leads(next, end)
    ensures Leads(w, end)
  {
    hide CanHappen, Happen;
    var rest :| LeadsBy(next, rest, end);
    OneEvent(w, e, next, rest, end);
    assert LeadsBy(w, [e] + rest, end);
  }

  lemma Arrived(w: World)
    ensures Leads(w, w)
  {
    assert LeadsBy(w, [], w);
  }

  /** The two timeouts. */
  lemma ThroughTimeouts(db: Database<Schema>, f: File<Command>, end: World)
    requires (f == F0009 || f == F0010) && Leads(World(db, At(f, 2)), end)
    ensures Leads(World(db, At(f, 0)), end)
  {
    hide Leads;
    Then(World(db, At(f, 1)), Timeout, World(db, At(f, 2)), end);
    Then(World(db, At(f, 0)), Timeout, World(db, At(f, 1)), end);
  }

  /** Some rows that are not locked, as many as a batch takes. */
  lemma ABatch(nulls: set<nat>) returns (ids: set<nat>)
    ensures ids <= nulls && |ids| <= ColumnSync.BATCH && (|ids| < ColumnSync.BATCH ==> ids == nulls)
    ensures nulls != {} ==> ids != {}
  {
    ids := {};
    var open := nulls;
    while open != {} && |ids| < ColumnSync.BATCH
      invariant ids !! open && ids + open == nulls && |ids| <= ColumnSync.BATCH
      invariant nulls != {} ==> ids != {} || open != {}
      decreases |open|
    {
      var id :| id in open;
      ids, open := ids + {id}, open - {id};
    }
    assert open == {} ==> ids == nulls;
  }

  /** A batch leaves fewer NULL rows, and filling the rest comes to the same. */
  lemma OneBatch(t: ColumnSync.Table, ids: set<nat>)
    requires ids <= ColumnSync.NullRows(t) && ids != {}
    ensures var t1 := ColumnSync.Filled(t, ids);
            && |ColumnSync.NullRows(t1)| < |ColumnSync.NullRows(t)|
            && ColumnSync.Filled(t1, ColumnSync.NullRows(t1)) == ColumnSync.Filled(t, ColumnSync.NullRows(t))
  {
    ColumnSync.FillShrinks(t, ids);
    FillAgain(t, ids);
    assert |ids| > 0;
  }

  /** The backfill without locks fills every NULL row, batch by batch. */
  lemma {:induction false} BackfillEnds(db: Database<Schema>)
    requires db.content.expanded
    ensures var t := db.content.table;
            var filled := db.content.(table := ColumnSync.Filled(t, ColumnSync.NullRows(t)));
            Leads(World(db, At(F0010, 2)), World(db.(content := filled), At(F0010, 3)))
    decreases |ColumnSync.NullRows(db.content.table)|
  {
    hide ColumnSync.NullRows, ColumnSync.Filled, Leads;
    var t := db.content.table;
    var nulls := ColumnSync.NullRows(t);
    var w := World(db, At(F0010, 2));
    var ids := ABatch(nulls);
    assert nulls - {} == nulls;
    var end := World(db.(content := db.content.(table := ColumnSync.Filled(t, nulls))), At(F0010, 3));
    if ids == {} {
      FilledNothing(t);
      Arrived(end);
      Then(w, Batch({}, {}), end, end);
    } else {
      var t1 := ColumnSync.Filled(t, ids);
      var next := World(db.(content := db.content.(table := t1)), At(F0010, 2));
      OneBatch(t, ids);
      BackfillEnds(next.db);
      Then(w, Batch({}, ids), next, end);
    }
  }

  lemma FilledNothing(t: ColumnSync.Table)
    requires ColumnSync.NullRows(t) == {}
    ensures ColumnSync.Filled(t, {}) == t && ColumnSync.Filled(t, ColumnSync.NullRows(t)) == t
  {
    assert ColumnSync.Filled(t, {}).rows == t.rows;
  }

  /** Undisturbed, with unique keys, a runner records 0009 with both indexes valid, whatever invalid
      indexes it finds. */
  lemma Finishes0009(db: Database<Schema>)
    requires db.content.expanded && UniqueKeys(db.content.keys) && Head(db) == Some(F0009)
    ensures Leads(World(db, Idle), World(Database(db.content.(stateIndex := Valid, keyIndex := Valid),
                                                  db.applied + {"0009"}), Idle))
  {
    hide Head, UniqueKeys;
    var d := db.content;
    var done := d.(stateIndex := Valid, keyIndex := Valid);
    var end := World(Database(done, db.applied + {"0009"}), Idle);
    Arrived(end);
    hide Leads;
    Then(World(db.(content := done), At(F0009, 4)), Record, end, end);
    var clean := DropInvalid(d);
    BuildsKeyIndex(db.(content := clean.(stateIndex := Valid)), end);
    BuildsStateIndex(db.(content := clean), end);
    ThroughTimeouts(db.(content := clean), F0009, end);
    Then(World(db.(content := clean), Dropping(F0009)), Start, World(db.(content := clean), At(F0009, 0)), end);
    DropsInvalid(db, end);
    Then(World(db, Idle), Begin, World(db, Dropping(F0009)), end);
  }

  lemma DropsInvalid(db: Database<Schema>, end: World)
    requires Leads(World(db.(content := DropInvalid(db.content)), Dropping(F0009)), end)
    ensures Leads(World(db, Dropping(F0009)), end)
  {
    hide Leads;
    var d := db.content;
    var d1 := d.(stateIndex := Dropped(d.stateIndex));
    if d.keyIndex == Invalid {
      Then(World(db.(content := d1), Dropping(F0009)), Drop(true),
           World(db.(content := DropInvalid(d)), Dropping(F0009)), end);
    }
    if d.stateIndex == Invalid {
      Then(World(db, Dropping(F0009)), Drop(false), World(db.(content := d1), Dropping(F0009)), end);
    }
  }

  lemma BuildsStateIndex(db: Database<Schema>, end: World)
    requires db.content.stateIndex != Invalid
    requires Leads(World(db.(content := db.content.(stateIndex := Valid)), At(F0009, 3)), end)
    ensures Leads(World(db, At(F0009, 2)), end)
  {
    hide Leads;
    var built := World(db.(content := db.content.(stateIndex := Valid)), At(F0009, 3));
    if db.content.stateIndex == Absent {
      var building := World(db.(content := db.content.(stateIndex := Invalid)), Building(F0009, 2));
      Then(building, Finish, built, end);
      Then(World(db, At(F0009, 2)), Build, building, end);
    } else {
      Then(World(db, At(F0009, 2)), Build, built, end);
    }
  }

  lemma BuildsKeyIndex(db: Database<Schema>, end: World)
    requires db.content.keyIndex != Invalid && UniqueKeys(db.content.keys)
    requires Leads(World(db.(content := db.content.(keyIndex := Valid)), At(F0009, 4)), end)
    ensures Leads(World(db, At(F0009, 3)), end)
  {
    hide Leads;
    var built := World(db.(content := db.content.(keyIndex := Valid)), At(F0009, 4));
    if db.content.keyIndex == Absent {
      var building := World(db.(content := db.content.(keyIndex := Invalid)), Building(F0009, 3));
      Then(building, Finish, built, end);
      Then(World(db, At(F0009, 3)), Build, building, end);
    } else {
      Then(World(db, At(F0009, 3)), Build, built, end);
    }
  }

  /** Undisturbed, a runner fills every NULL row and records 0010. */
  lemma Finishes0010(db: Database<Schema>)
    requires Promised(db) && "0009" in db.applied && Head(db) == Some(F0010)
    ensures var t := db.content.table;
            var filled := db.content.(table := ColumnSync.Filled(t, ColumnSync.NullRows(t)));
            Leads(World(db, Idle), World(Database(filled, db.applied + {"0010"}), Idle))
  {
    var t := db.content.table;
    var filled := db.content.(table := ColumnSync.Filled(t, ColumnSync.NullRows(t)));
    var end := World(Database(filled, db.applied + {"0010"}), Idle);
    BackfillEnds(db);
    hide Head, ColumnSync.NullRows, ColumnSync.Filled, Promised;
    Arrived(end);
    var w3 := World(db.(content := filled), At(F0010, 3));
    hide Leads;
    Then(w3, Record, end, end);
    Onward(World(db, At(F0010, 2)), w3, end);
    ThroughTimeouts(db, F0010, end);
    NothingInvalid(db);
    Then(World(db, Dropping(F0010)), Start, World(db, At(F0010, 0)), end);
    Then(World(db, Idle), Begin, World(db, Dropping(F0010)), end);
  }

  lemma NothingInvalid(db: Database<Schema>)
    requires Promised(db) && "0009" in db.applied
    ensures db.content.stateIndex == Valid && db.content.keyIndex == Valid
  {
  }

  lemma Onward(w: World, mid: World, end: World)
    requires Leads(w, mid) && Leads(mid, end)
    ensures Leads(w, end)
  {
    var first :| LeadsBy(w, first, mid);
    var second :| LeadsBy(mid, second, end);
    Joined(w, first, second);
    assert LeadsBy(w, first + second, end);
  }

  lemma {:induction false} Joined(w: World, first: seq<Event>, second: seq<Event>)
    requires IsHistory(w, first) && IsHistory(AfterAll(w, first), second)
    ensures IsHistory(w, first + second) && AfterAll(w, first + second) == AfterAll(AfterAll(w, first), second)
    decreases |first|
  {
    hide CanHappen, Happen;
    if first == [] {
      assert first + second == second;
    } else {
      assert (first + second)[1..] == first[1..] + second;
      Joined(Happen(w, first[0]), first[1..], second);
    }
  }

  /** 0011 on rows whose state is set. */
  lemma Finishes0011(db: Database<Schema>)
    requires Promised(db) && ColumnSync.NullRows(db.content.table) == {} && Head(db) == Some(F0011)
    ensures var t := db.content.table;
            var checked := db.content.(table := t.(check := ColumnSync.Valid));
            Leads(World(db, Idle), World(Database(checked, db.applied + {"0011"}), Idle))
  {
    Effect0011(db.content);
    hide Effect, Head, ENGINE, ColumnSync.NullRows;
    var checked := db.content.(table := db.content.table.(check := ColumnSync.Valid));
    var end := World(Database(checked, db.applied + {"0011"}), Idle);
    assert CleanFile(ENGINE, db, F0011) == Some(end.db);
    Arrived(end);
    hide Leads;
    Then(World(db, Idle), Commit, end, end);
  }

  lemma FilledPromised(db: Database<Schema>)
    requires Promised(db)
    ensures var t := db.content.table;
            var filled := ColumnSync.Filled(t, ColumnSync.NullRows(t));
            var db' := Database(db.content.(table := filled), db.applied + {"0010"});
            && Promised(db') && ColumnSync.NullRows(filled) == {} && filled.check == t.check
            && (ColumnSync.NullRows(t) == {} ==> filled == t)
  {
    var t := db.content.table;
    FilledHasNoNulls(t);
    FillKeepsSynced(t, ColumnSync.NullRows(t));
    if ColumnSync.NullRows(t) == {} { FilledNothing(t); }
  }

  /** The files recorded when everything is done. */
  function AllRecorded(applied: set<string>): set<string> {
    applied + {"0009"} + {"0010"} + {"0011"}
  }

  lemma Finishes(db: Database<Schema>)
    requires Promised(db) && UniqueKeys(db.content.keys) && "0008" in db.applied
    requires "0010" in db.applied ==> ColumnSync.NullRows(db.content.table) == {}
    ensures Leads(World(db, Idle), World(Database(Expanded(db.content), AllRecorded(db.applied)), Idle))
  {
    FilledPromised(db);
    var d, t := db.content, db.content.table;
    var db1 := Database(d.(stateIndex := Valid, keyIndex := Valid), db.applied + {"0009"});
    var filled := ColumnSync.Filled(t, ColumnSync.NullRows(t));
    var db2 := Database(db1.content.(table := filled), db1.applied + {"0010"});
    var end := World(Database(Expanded(d), AllRecorded(db.applied)), Idle);
    HeadIs(db);
    HeadIs(db1);
    HeadIs(db2);
    assert Promised(db1);
    FilledPromised(db1);
    hide Head, ColumnSync.NullRows, ColumnSync.Filled, ColumnSync.TableSynced, UniqueKeys, Leads;
    if "0011" in db2.applied {
      assert db2.applied == AllRecorded(db.applied);
      assert end == World(db2, Idle);
      Arrived(end);
    } else {
      Finishes0011(db2);
      assert Database(db2.content.(table := filled.(check := ColumnSync.Valid)), db2.applied + {"0011"}) == end.db;
    }
    if "0010" in db1.applied {
      assert db2 == db1 by { assert db1.applied + {"0010"} == db1.applied; }
    } else {
      Finishes0010(db1);
      Onward(World(db1, Idle), World(db2, Idle), end);
    }
    if "0009" in db.applied {
      assert db1 == db by { assert db.applied + {"0009"} == db.applied; }
    } else {
      Finishes0009(db);
      Onward(World(db, Idle), World(db1, Idle), end);
    }
  }

  /** A runner that is left alone, with unique keys and behind 0008, can get through to both indexes
      valid, every state filled and the check valid, if and only if 0010 is not recorded over NULL
      states. */
  lemma FinishesIff(db: Database<Schema>)
    requires Promised(db) && UniqueKeys(db.content.keys) && "0008" in db.applied
    ensures Leads(World(db, Idle), World(Database(Expanded(db.content), AllRecorded(db.applied)), Idle)) <==>
              ("0010" in db.applied ==> ColumnSync.NullRows(db.content.table) == {})
  {
    var w, end := World(db, Idle), World(Database(Expanded(db.content), AllRecorded(db.applied)), Idle);
    hide ColumnSync.NullRows, Expanded, UniqueKeys;
    if "0010" in db.applied ==> ColumnSync.NullRows(db.content.table) == {} {
      Finishes(db);
    } else if Leads(w, end) {
      var events :| LeadsBy(w, events, end);
      assert Inv(w);
      OnlyWritesUnblock(w, events);
      assert false;
    }
  }
}
