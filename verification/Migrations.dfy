/** The expand migrations 0008 to 0011 as files of the runner: what their statements do to the
    payouts table, its two concurrent indexes and its check, and what they leave when they do not
    finish. */
module Migrations {
  import opened Common
  import opened Runner
  import ColumnSync

  datatype Index = Absent | Invalid | Valid

  /** `keys` holds the idempotency keys that are not NULL, by row. `expanded` says that the columns
      and the trigger of 0008 are there. */
  datatype Schema = Schema(table: ColumnSync.Table, keys: map<nat, string>, expanded: bool,
                           stateIndex: Index, keyIndex: Index)

  datatype Command = SetTimeout | Expand | BuildStateIndex | BuildKeyIndex | Backfill | AddCheck | Validate

  predicate UniqueKeys(keys: map<nat, string>) {
    forall a, b :: a in keys && b in keys && keys[a] == keys[b] ==> a == b
  }

  function Build(i: Index): Index {
    if i == Absent then Valid else i
  }

  function Dropped(i: Index): Index {
    if i == Invalid then Absent else i
  }

  /** A statement that completes. IF NOT EXISTS skips an index that is there, valid or not; a unique
      build fails on equal keys; and the backfill runs without competing row locks. */
  function Execute(d: Schema, c: Command): Option<Schema> {
    match c
    case SetTimeout => Some(d)
    case Expand => Some(d.(expanded := true))
    case _ =>
      if !d.expanded then None
      else
        match c
        case BuildStateIndex => Some(d.(stateIndex := Build(d.stateIndex)))
        case BuildKeyIndex =>
          if d.keyIndex == Absent && !UniqueKeys(d.keys) then None else Some(d.(keyIndex := Build(d.keyIndex)))
        case Backfill => Some(d.(table := ColumnSync.Filled(d.table, ColumnSync.NullRows(d.table))))
        case AddCheck => Some(d.(table := ColumnSync.Happen(d.table, ColumnSync.AddCheck)))
        case _ =>
          var t := ColumnSync.Happen(d.table, ColumnSync.Validate);
          if t.check.Valid? then Some(d.(table := t)) else None
  }

  /** What a statement that fails or is interrupted outside a transaction may leave: a concurrent
      build leaves an invalid index, the backfill its committed batches. */
  predicate Torn(d: Schema, c: Command, d': Schema) {
    || d' == d
    || Execute(d, c) == Some(d')
    || (c == BuildStateIndex && d.stateIndex == Absent && d' == d.(stateIndex := Invalid))
    || (c == BuildKeyIndex && d.keyIndex == Absent && d' == d.(keyIndex := Invalid))
    || (c == Backfill && d.expanded && PartlyFilled(d, d'))
  }

  /** Statements that do not complete can leave everything they leave in fact: nothing, all of it, an
      invalid index where none was, and any committed batches. */
  lemma TornCovers(d: Schema, ids: set<nat>)
    requires d.expanded && ids <= ColumnSync.NullRows(d.table)
    ensures forall c :: Torn(d, c, d) && (Execute(d, c).Some? ==> Torn(d, c, Execute(d, c).value))
    ensures d.stateIndex == Absent ==> Torn(d, BuildStateIndex, d.(stateIndex := Invalid))
    ensures d.keyIndex == Absent ==> Torn(d, BuildKeyIndex, d.(keyIndex := Invalid))
    ensures Torn(d, Backfill, d.(table := ColumnSync.Filled(d.table, ids)))
  {
    ColumnSync.FillShrinks(d.table, ids);
    var nulls := ColumnSync.NullRows(d.table);
    assert nulls - (nulls - ids) == ids;
  }

  predicate PartlyFilled(d: Schema, d': Schema) {
    var ids := ColumnSync.NullRows(d.table) - ColumnSync.NullRows(d'.table);
    d' == d.(table := ColumnSync.Filled(d.table, ids))
  }

  function DropInvalid(d: Schema): Schema {
    d.(stateIndex := Dropped(d.stateIndex), keyIndex := Dropped(d.keyIndex))
  }

  /** Each index is dropped by a statement of its own. */
  predicate DropTorn(d: Schema, d': Schema) {
    || d' == d || d' == DropInvalid(d)
    || d' == d.(stateIndex := Dropped(d.stateIndex))
    || d' == d.(keyIndex := Dropped(d.keyIndex))
  }

  const ENGINE: Engine<Schema, Command> := Engine(Execute, Torn, DropInvalid, DropTorn)

  const F0008: File<Command> := File("0008", false, [SetTimeout, SetTimeout, Expand])
  const F0009: File<Command> := File("0009", true, [SetTimeout, SetTimeout, BuildStateIndex, BuildKeyIndex])
  const F0010: File<Command> := File("0010", true, [SetTimeout, SetTimeout, Backfill])
  const F0011: File<Command> := File("0011", false, [SetTimeout, SetTimeout, AddCheck, Validate])

  const EXPAND: seq<File<Command>> := [F0008, F0009, F0010, F0011]

  /* ---- what the files do ---- */

  function After0009(d: Schema): Option<Schema> {
    if d.expanded && (d.keyIndex == Valid || UniqueKeys(d.keys)) then Some(d.(stateIndex := Valid, keyIndex := Valid))
    else None
  }

  function After0010(d: Schema): Option<Schema> {
    if d.expanded then Some(DropInvalid(d).(table := ColumnSync.Filled(d.table, ColumnSync.NullRows(d.table))))
    else None
  }

  /** Executing a list of two timeouts and more. */
  lemma SkipTimeouts(e: Engine<Schema, Command>, d: Schema, rest: seq<Command>)
    requires e.exec == Execute
    ensures Exec(e, d, [SetTimeout, SetTimeout] + rest) == Exec(e, d, rest)
  {
    var all := [SetTimeout, SetTimeout] + rest;
    assert all[1..][1..] == rest;
    assert e.exec(d, SetTimeout) == Some(d);
  }

  lemma Exec1(e: Engine<Schema, Command>, d: Schema, c: Command)
    requires e.exec == Execute
    ensures Exec(e, d, [c]) == Execute(d, c)
  {
    var d1 := Execute(d, c);
    assert d1.Some? ==> Exec(e, d1.value, [c][1..]) == d1;
  }

  lemma Exec2(e: Engine<Schema, Command>, d: Schema, c1: Command, c2: Command)
    requires e.exec == Execute
    ensures Exec(e, d, [c1, c2]) ==
            (var d1 := Execute(d, c1); if d1.Some? then Execute(d1.value, c2) else None)
  {
    var d1 := Execute(d, c1);
    assert [c1, c2][1..] == [c2];
    if d1.Some? { Exec1(e, d1.value, c2); }
  }

  /** 0009 leaves both indexes valid, or fails because of equal keys. */
  lemma Effect0009(d: Schema)
    ensures Effect(ENGINE, d, F0009) == After0009(d)
  {
    SkipTimeouts(ENGINE, DropInvalid(d), [BuildStateIndex, BuildKeyIndex]);
    assert F0009.statements == [SetTimeout, SetTimeout] + [BuildStateIndex, BuildKeyIndex];
    Exec2(ENGINE, DropInvalid(d), BuildStateIndex, BuildKeyIndex);
  }

  lemma Effect0010(d: Schema)
    ensures Effect(ENGINE, d, F0010) == After0010(d)
  {
    SkipTimeouts(ENGINE, DropInvalid(d), [Backfill]);
    assert F0010.statements == [SetTimeout, SetTimeout] + [Backfill];
    Exec1(ENGINE, DropInvalid(d), Backfill);
  }

  /** A prefix of 0009, of any length. */
  lemma Prefix0009(d: Schema, k: nat)
    requires k <= 4 && d == DropInvalid(d)
    ensures var mid := Exec(ENGINE, d, F0009.statements[..k]);
            mid.Some? ==>
              && (mid.value == d
                  || (k >= 3 && d.expanded && mid.value == d.(stateIndex := Valid))
                  || (k == 4 && After0009(d) == mid))
  {
    var all := F0009.statements;
    if k <= 2 {
      PrefixOfTimeouts(d, all, k);
    } else if k == 3 {
      assert all[..3] == [SetTimeout, SetTimeout] + [BuildStateIndex];
      SkipTimeouts(ENGINE, d, [BuildStateIndex]);
      Exec1(ENGINE, d, BuildStateIndex);
    } else {
      assert all[..4] == all;
      Effect0009(d);
    }
  }

  lemma PrefixOfTimeouts(d: Schema, all: seq<Command>, k: nat)
    requires k <= 2 <= |all| && all[0] == SetTimeout && all[1] == SetTimeout
    ensures Exec(ENGINE, d, all[..k]) == Some(d)
  {
    if k == 0 {
      assert all[..0] == [];
    } else if k == 1 {
      assert all[..1] == [SetTimeout];
      Exec1(ENGINE, d, SetTimeout);
    } else {
      assert all[..2] == [SetTimeout, SetTimeout];
      Exec2(ENGINE, d, SetTimeout, SetTimeout);
    }
  }

  /** Whatever an unfinished 0009 leaves, only the indexes differ, and no valid one is lost. */
  lemma Left0009(d: Schema, d': Schema)
    requires Left(ENGINE, d, F0009, d')
    ensures d' == d.(stateIndex := d'.stateIndex, keyIndex := d'.keyIndex)
    ensures d.keyIndex == Valid ==> d'.keyIndex == Valid
    ensures d'.keyIndex == Valid ==> d.keyIndex == Valid || UniqueKeys(d.keys)
  {
    if d' != d && !DropTorn(d, d') {
      var k: nat :| LeftAt(ENGINE, d, F0009, k, d');
      Prefix0009(DropInvalid(d), k);
      var mid := Exec(ENGINE, DropInvalid(d), F0009.statements[..k]).value;
      hide Exec;
      TornKeeps0009(d, mid, d', k);
    }
  }

  /** What a statement of 0009 leaves, after d's invalid indexes were dropped. */
  lemma TornKeeps0009(d: Schema, mid: Schema, d': Schema, k: nat)
    requires k <= 4 && (d' == mid || (k < 4 && Torn(mid, F0009.statements[k], d')))
    requires mid == d.(stateIndex := mid.stateIndex, keyIndex := mid.keyIndex)
    requires d.keyIndex == Valid ==> mid.keyIndex == Valid
    requires mid.keyIndex == Valid ==> d.keyIndex == Valid || UniqueKeys(d.keys)
    ensures d' == d.(stateIndex := d'.stateIndex, keyIndex := d'.keyIndex)
    ensures d.keyIndex == Valid ==> d'.keyIndex == Valid
    ensures d'.keyIndex == Valid ==> d.keyIndex == Valid || UniqueKeys(d.keys)
  {
    hide UniqueKeys, PartlyFilled;
  }

  /** 0009 can be started again after any executed prefix: each attempt first drops the invalid
      indexes that failed builds left. */
  lemma Restartable0009()
    ensures Restartable(ENGINE, F0009)
  {
    forall d, d' | Left(ENGINE, d, F0009, d')
      ensures Effect(ENGINE, d', F0009) == Effect(ENGINE, d, F0009)
    {
      Left0009(d, d');
      Effect0009(d);
      Effect0009(d');
    }
  }

  /** From d to d' some rows were filled and perhaps invalid indexes dropped. */
  ghost predicate SomeFilled(d: Schema, d': Schema) {
    && DropInvalid(d') == DropInvalid(d).(table := d'.table)
    && (d.stateIndex == Valid ==> d'.stateIndex == Valid)
    && (d.keyIndex == Valid <==> d'.keyIndex == Valid)
    && (d'.table == d.table
        || (d.expanded && exists ids ::
              ids <= ColumnSync.NullRows(d.table) && d'.table == ColumnSync.Filled(d.table, ids)))
  }

  /** Whatever an unfinished 0010 leaves is that. */
  lemma Left0010(d: Schema, d': Schema)
    requires Left(ENGINE, d, F0010, d')
    ensures SomeFilled(d, d')
  {
    if d' != d && !DropTorn(d, d') {
      var k: nat :| LeftAt(ENGINE, d, F0010, k, d');
      if k <= 2 {
        PrefixOfTimeouts(DropInvalid(d), F0010.statements, k);
        hide Exec;
        TornKeeps0010(d, F0010.statements[k], d');
      } else {
        assert F0010.statements[..3] == F0010.statements;
        Effect0010(d);
        hide Exec, Effect;
        assert Some(d') == After0010(d);
      }
    }
  }

  lemma TornKeeps0010(d: Schema, c: Command, d': Schema)
    requires c == SetTimeout || c == Backfill
    requires d' == DropInvalid(d) || Torn(DropInvalid(d), c, d')
    ensures SomeFilled(d, d')
  {
    var ids := ColumnSync.NullRows(d.table) - ColumnSync.NullRows(d'.table);
    assert ids <= ColumnSync.NullRows(d.table);
    hide ColumnSync.NullRows, ColumnSync.Filled;
  }

  lemma FillAgain(t: ColumnSync.Table, ids: set<nat>)
    requires ids <= ColumnSync.NullRows(t)
    ensures var t' := ColumnSync.Filled(t, ids);
            ColumnSync.Filled(t', ColumnSync.NullRows(t')) == ColumnSync.Filled(t, ColumnSync.NullRows(t))
  {
    var t' := ColumnSync.Filled(t, ids);
    var all := ColumnSync.NullRows(t);
    ColumnSync.FillShrinks(t, ids);
    assert ColumnSync.Filled(t', all - ids).rows == ColumnSync.Filled(t, all).rows;
  }

  /** 0010 can be started again after any batches: it only touches rows whose state is NULL. */
  lemma Restartable0010()
    ensures Restartable(ENGINE, F0010)
  {
    forall d, d' | Left(ENGINE, d, F0010, d')
      ensures Effect(ENGINE, d', F0010) == Effect(ENGINE, d, F0010)
    {
      Left0010(d, d');
      Effect0010(d);
      Effect0010(d');
      if d'.table != d.table {
        var ids :| ids <= ColumnSync.NullRows(d.table) && d'.table == ColumnSync.Filled(d.table, ids);
        FillAgain(d.table, ids);
      }
    }
  }

  lemma ExpandIsRestartable()
    ensures DistinctVersions(EXPAND) && AllRestartable(ENGINE, EXPAND)
  {
    Restartable0009();
    Restartable0010();
  }

  lemma Effect0008(d: Schema)
    ensures Effect(ENGINE, d, F0008) == Some(d.(expanded := true))
  {
    SkipTimeouts(ENGINE, d, [Expand]);
    assert F0008.statements == [SetTimeout, SetTimeout] + [Expand];
    Exec1(ENGINE, d, Expand);
  }

  function After0011(d: Schema): Option<Schema> {
    if d.expanded && ColumnSync.NullRows(d.table) == {} then Some(d.(table := d.table.(check := ColumnSync.Valid)))
    else None
  }

  /** 0011 validates the check exactly when no state is NULL. A check that was valid stays so. */
  lemma Effect0011(d: Schema)
    requires d.table.check.Valid? ==> ColumnSync.NullRows(d.table) == {}
    ensures Effect(ENGINE, d, F0011) == After0011(d)
  {
    SkipTimeouts(ENGINE, d, [AddCheck, Validate]);
    assert F0011.statements == [SetTimeout, SetTimeout] + [AddCheck, Validate];
    Exec2(ENGINE, d, AddCheck, Validate);
    var t := ColumnSync.Happen(d.table, ColumnSync.AddCheck);
    assert t.rows == d.table.rows;
    assert ColumnSync.NullRows(t) == ColumnSync.NullRows(d.table);
  }

  /* ---- the whole expand phase ---- */

  /** The schema after the four files: both indexes valid, every state filled, the check valid. */
  function Expanded(d: Schema): Schema {
    var filled := ColumnSync.Filled(d.table, ColumnSync.NullRows(d.table));
    Schema(filled.(check := ColumnSync.Valid), d.keys, true, Valid, Valid)
  }

  ghost predicate NoneApplied(db: Database<Schema>) {
    forall f :: f in EXPAND ==> f.version !in db.applied
  }

  lemma AllPending(db: Database<Schema>)
    requires NoneApplied(db)
    ensures Pending(EXPAND, db.applied) == EXPAND
  {
    var applied := db.applied;
    assert EXPAND[1..] == [F0009, F0010, F0011] && EXPAND[1..][1..] == [F0010, F0011];
    assert EXPAND[1..][1..][1..] == [F0011] && EXPAND[1..][1..][1..][1..] == [];
    assert F0008 in EXPAND && F0009 in EXPAND && F0010 in EXPAND && F0011 in EXPAND;
    assert Pending([F0011], applied) == [F0011];
    assert Pending([F0010, F0011], applied) == [F0010, F0011];
    assert Pending([F0009, F0010, F0011], applied) == [F0009, F0010, F0011];
  }

  lemma ApplyFirst(db: Database<Schema>, f: File<Command>, rest: seq<File<Command>>, d: Schema)
    requires Effect(ENGINE, db.content, f) == Some(d)
    ensures ApplyAll(ENGINE, db, [f] + rest) == ApplyAll(ENGINE, Database(d, db.applied + {f.version}), rest)
  {
    assert ([f] + rest)[1..] == rest;
  }

  /** What one clean run of the four files leaves, when the keys are unique. */
  lemma CleanExpand(db: Database<Schema>)
    requires NoneApplied(db) && UniqueKeys(db.content.keys)
    ensures CleanRun(ENGINE, EXPAND, db) ==
            Some(Database(Expanded(db.content), db.applied + {"0008"} + {"0009"} + {"0010"} + {"0011"}))
  {
    var d := db.content;
    var d1 := d.(expanded := true);
    var d2 := d1.(stateIndex := Valid, keyIndex := Valid);
    var d3 := d2.(table := ColumnSync.Filled(d.table, ColumnSync.NullRows(d.table)));
    FilledHasNoNulls(d.table);
    Effect0008(d);
    Effect0009(d1);
    Effect0010(d2);
    Effect0011(d3);
    var a1 := db.applied + {"0008"};
    var a2 := a1 + {"0009"};
    var a3 := a2 + {"0010"};
    AllPending(db);
    hide Effect, After0010, ENGINE;
    assert EXPAND == [F0008] + [F0009, F0010, F0011];
    ApplyFirst(db, F0008, [F0009, F0010, F0011], d1);
    assert [F0009, F0010, F0011] == [F0009] + [F0010, F0011];
    ApplyFirst(Database(d1, a1), F0009, [F0010, F0011], d2);
    assert [F0010, F0011] == [F0010] + [F0011];
    ApplyFirst(Database(d2, a2), F0010, [F0011], d3);
    assert [F0011] == [F0011] + [];
    ApplyFirst(Database(d3, a3), F0011, [], Expanded(d));
  }

  lemma FilledHasNoNulls(t: ColumnSync.Table)
    ensures ColumnSync.NullRows(ColumnSync.Filled(t, ColumnSync.NullRows(t))) == {}
    ensures ColumnSync.TableSynced(t) ==>
              forall id :: id in ColumnSync.Filled(t, ColumnSync.NullRows(t)).rows ==>
                             ColumnSync.Agrees(ColumnSync.Filled(t, ColumnSync.NullRows(t)).rows[id])
  {
    ColumnSync.FillShrinks(t, ColumnSync.NullRows(t));
  }

  /** The expand phase survives any failures: however many runs failed or crashed on the way, once
      nothing is pending both indexes and the check are valid and both columns agree on every row. */
  lemma ExpandResumes(trace: seq<Database<Schema>>)
    requires IsTrace(ENGINE, EXPAND, trace) && NoneApplied(trace[0]) && UniqueKeys(trace[0].content.keys)
    requires ColumnSync.TableSynced(trace[0].content.table)
    requires Pending(EXPAND, trace[|trace| - 1].applied) == []
    ensures var d := trace[|trace| - 1].content;
            && d == Expanded(trace[0].content)
            && d.stateIndex == Valid && d.keyIndex == Valid && d.table.check.Valid?
            && forall id :: id in d.table.rows ==> ColumnSync.Agrees(d.table.rows[id])
  {
    ExpandIsRestartable();
    Resume(ENGINE, EXPAND, trace);
    CleanExpand(trace[0]);
    FilledHasNoNulls(trace[0].content.table);
  }

  /* ---- why invalid indexes are dropped first ---- */

  /** Without the drop before each attempt, an invalid index left by a failed build is skipped by IF
      NOT EXISTS, and 0009 is recorded with the index invalid. */
  lemma WithoutTheDrop(db: Database<Schema>)
    requires db.content.expanded && db.content.stateIndex == Absent && UniqueKeys(db.content.keys)
    ensures var e := ENGINE.(dropInvalid := (d: Schema) => d);
            var left := db.(content := db.content.(stateIndex := Invalid));
            && Interrupted(e, db, F0009, left)
            && CleanFile(e, left, F0009).Some?
            && CleanFile(e, left, F0009).value.content.stateIndex == Invalid
  {
    var e := ENGINE.(dropInvalid := (d: Schema) => d);
    var d := db.content.(stateIndex := Invalid);
    var all := F0009.statements;
    assert all[..2] == [SetTimeout, SetTimeout];
    Exec2(e, db.content, SetTimeout, SetTimeout);
    assert LeftAt(e, db.content, F0009, 2, d);
    assert all == [SetTimeout, SetTimeout] + [BuildStateIndex, BuildKeyIndex];
    SkipTimeouts(e, d, [BuildStateIndex, BuildKeyIndex]);
    Exec2(e, d, BuildStateIndex, BuildKeyIndex);
  }
}
