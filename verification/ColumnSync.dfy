/** The expand step of payouts.status -> payouts.state: the sync trigger, writers of both
    versions, the backfill and the validated check (migrations/0008, 0010 and 0011). */
module ColumnSync {
  import opened Common

  /** The two columns of one payout row. `status` is NOT NULL; `state` may be NULL. */
  datatype Row = Row(status: string, state: Option<string>)

  datatype Check = Missing | NotValid | Valid

  datatype Table = Table(rows: map<nat, Row>, check: Check)

  /* ---- the trigger ---- */

  datatype Op = Insert | Update(was: Row)

  /** The row the trigger stores for a proposed row; None when `status` would become NULL. */
  function Synced(op: Op, proposed: Row): Option<Row> {
    if op.Insert? then
      Some(if proposed.state.Some? then Row(proposed.state.value, proposed.state)
           else Row(proposed.status, Some(proposed.status)))
    else if proposed.state != op.was.state then
      if proposed.state.Some? then Some(Row(proposed.state.value, proposed.state)) else None
    else if proposed.status != op.was.status then Some(Row(proposed.status, Some(proposed.status)))
    else Some(proposed)
  }

  /** The trigger body: assigns one column of NEW from the other. */
  method PayoutsSyncState(op: Op, proposed: Row) returns (stored: Option<Row>)
    ensures stored == Synced(op, proposed)
    // an insert, or an update of one column, leaves the value written in both
    ensures op.Insert? ==>
              var v := if proposed.state.Some? then proposed.state.value else proposed.status;
              stored == Some(Row(v, Some(v)))
    ensures op.Update? && proposed.state == op.was.state && proposed.status != op.was.status ==>
              stored == Some(Row(proposed.status, Some(proposed.status)))
    ensures op.Update? && proposed.state != op.was.state && proposed.state.Some? ==>
              stored == Some(Row(proposed.state.value, proposed.state))
    ensures op.Update? && proposed == op.was ==> stored == Some(op.was)
    ensures stored.Some? ==> Agrees(stored.value) || (op.Update? && stored.value == op.was)
  {
    var status: Option<string>, state := Some(proposed.status), proposed.state;
    if op.Insert? {
      if state.Some? {
        status := state;
      } else {
        state := status;
      }
    } else if state != op.was.state {
      status := state;
    } else if status != Some(op.was.status) {
      state := status;
    }
    return if status.Some? then Some(Row(status.value, state)) else None;
  }

  /** Both columns hold the same value. */
  predicate Agrees(r: Row) {
    r.state == Some(r.status)
  }

  /** Both columns agree, or `state` was never written. */
  predicate RowSynced(r: Row) {
    r.state == None || Agrees(r)
  }

  ghost predicate TableSynced(t: Table) {
    forall id :: id in t.rows ==> RowSynced(t.rows[id])
  }

  function NullRows(t: Table): set<nat> {
    set id | id in t.rows && t.rows[id].state == None
  }

  /* ---- writers ---- */

  /** v1.7 writes `status`, v1.9 writes `state`; both also update other columns. */
  datatype Write =
    | InsertStatus(id: nat, value: string)
    | InsertState(id: nat, value: string)
    | SetStatus(id: nat, value: string)
    | SetState(id: nat, value: string)
    | Touch(id: nat)

  const DEFAULT_STATUS := "queued"

  function Proposed(t: Table, w: Write): Row
    requires w.InsertStatus? || w.InsertState? || w.id in t.rows
  {
    match w
    case InsertStatus(_, v) => Row(v, None)
    case InsertState(_, v) => Row(DEFAULT_STATUS, Some(v))
    case SetStatus(id, v) => t.rows[id].(status := v)
    case SetState(id, v) => t.rows[id].(state := Some(v))
    case Touch(id) => t.rows[id]
  }

  predicate Finds(t: Table, w: Write) {
    if w.InsertStatus? || w.InsertState? then w.id !in t.rows else w.id in t.rows
  }

  /** The stored row, or None when the write finds no row, repeats an id or breaks a constraint. */
  function Stored(t: Table, w: Write): Option<Row> {
    if !Finds(t, w) then None
    else
      var op := if w.id in t.rows then Update(t.rows[w.id]) else Insert;
      var row := Synced(op, Proposed(t, w));
      if row.Some? && t.check != Missing && row.value.state == None then None else row
  }

  function Apply(t: Table, w: Write): Table {
    var row := Stored(t, w);
    if row.Some? then t.(rows := t.rows[w.id := row.value]) else t
  }

  /* ---- what a write does, without the trigger ---- */

  predicate Inserts(w: Write) {
    w.InsertStatus? || w.InsertState?
  }

  /** The write brings nothing new to a row whose state is NULL, so that it stays NULL. */
  predicate LeavesNull(t: Table, w: Write) {
    && w.id in t.rows && t.rows[w.id].state == None
    && (w.Touch? || (w.SetStatus? && w.value == t.rows[w.id].status))
  }

  /** An insert on a free id and an update of an existing row leave the value written in both columns,
      or a NULL state NULL; no other row changes. The only refusals are an insert on a used id, an
      update of no row, and, once the check is there, a write that leaves a NULL state NULL. */
  lemma WriteTakesEffect(t: Table, w: Write)
    requires TableSynced(t)
    ensures Apply(t, w).check == t.check
    ensures forall id :: id != w.id ==>
              (id in Apply(t, w).rows <==> id in t.rows) && (id in t.rows ==> Apply(t, w).rows[id] == t.rows[id])
    ensures Inserts(w) == (w.id !in t.rows) && !w.Touch? ==>
              && w.id in Apply(t, w).rows && Apply(t, w).rows[w.id].status == w.value
              && Apply(t, w).rows[w.id].state == if LeavesNull(t, w) then None else Some(w.value)
    ensures Inserts(w) != (w.id !in t.rows) || w.Touch? ==> Apply(t, w) == t
    ensures Stored(t, w) == None <==>
              Inserts(w) != (w.id !in t.rows) || (t.check != Missing && LeavesNull(t, w))
  {
    assert t.rows == (if w.id in t.rows then t.rows[w.id := t.rows[w.id]] else t.rows);
  }

  /* ---- everything that may happen after 0008 ---- */

  const BATCH: nat := 5000

  datatype Event =
    | By(write: Write)
    | Fill(ids: set<nat>)      // one committed batch of the backfill
    | AddCheck                 // 0011, first statement
    | Validate                 // 0011, second statement

  ghost predicate CanHappen(t: Table, e: Event) {
    match e
    case Fill(ids) => ids <= NullRows(t) && |ids| <= BATCH
    case _ => true
  }

  /** The batch update: state := status, through the trigger. */
  function FillRow(r: Row): Row {
    var stored := Synced(Update(r), r.(state := Some(r.status)));
    if stored.Some? then stored.value else r
  }

  function Filled(t: Table, ids: set<nat>): Table {
    t.(rows := map id | id in t.rows :: if id in ids then FillRow(t.rows[id]) else t.rows[id])
  }

  function Happen(t: Table, e: Event): Table {
    match e
    case By(w) => Apply(t, w)
    case Fill(ids) => Filled(t, ids)
    case AddCheck => if t.check == Missing then t.(check := NotValid) else t
    case Validate => if t.check != Missing && NullRows(t) == {} then t.(check := Valid) else t
  }

  ghost predicate IsHistory(t: Table, events: seq<Event>)
    decreases |events|
  {
    events == [] || (CanHappen(t, events[0]) && IsHistory(Happen(t, events[0]), events[1..]))
  }

  function After(t: Table, events: seq<Event>): Table
    decreases |events|
  {
    if events == [] then t else After(Happen(t, events[0]), events[1..])
  }

  /** The ids in use after an event: inserts add theirs. */
  function IdsAfter(ids: set<nat>, e: Event): set<nat> {
    if e.By? && Inserts(e.write) then ids + {e.write.id} else ids
  }

  /** The value an event writes to row id: an insert if the id is free, an update if it is used. */
  function Written(ids: set<nat>, e: Event, id: nat): Option<string> {
    if e.By? && !e.write.Touch? && e.write.id == id && Inserts(e.write) == (id !in ids) then Some(e.write.value)
    else None
  }

  /** The last value written to row id through either column, from the events alone: given its value
      before and the ids in use before. */
  function LastWrite(ids: set<nat>, events: seq<Event>, id: nat, before: Option<string>): Option<string>
    decreases |events|
  {
    if events == [] then before
    else
      var v := Written(ids, events[0], id);
      LastWrite(IdsAfter(ids, events[0]), events[1..], id, if v.Some? then v else before)
  }

  function StatusOf(t: Table, id: nat): Option<string> {
    if id in t.rows then Some(t.rows[id].status) else None
  }

  lemma OneEvent(t: Table, e: Event)
    requires TableSynced(t) && CanHappen(t, e)
    ensures TableSynced(Happen(t, e))
    ensures NullRows(Happen(t, e)) <= NullRows(t)
    ensures forall id :: StatusOf(Happen(t, e), id) ==
              (var v := Written(t.rows.Keys, e, id); if v.Some? then v else StatusOf(t, id))
    ensures t.check != Missing ==> Happen(t, e).check != Missing
    ensures t.check == Valid && NullRows(t) == {} ==> Happen(t, e).check == Valid && NullRows(Happen(t, e)) == {}
    ensures Happen(t, e).rows.Keys == IdsAfter(t.rows.Keys, e)
  {
    if e.By? { WriteTakesEffect(t, e.write); }
    assert Happen(t, e).rows.Keys == IdsAfter(t.rows.Keys, e);
  }

  /** Two columns, one register: for every interleaving of v1.7 and v1.9 writes with the backfill
      and the check, `status` reads the last write made through either column, as the events alone say
      it, and so does `state` on every row where it is not NULL. */
  lemma {:induction false} OneRegister(t: Table, events: seq<Event>, id: nat)
    requires TableSynced(t) && IsHistory(t, events)
    ensures TableSynced(After(t, events))
    ensures StatusOf(After(t, events), id) == LastWrite(t.rows.Keys, events, id, StatusOf(t, id))
    ensures id in After(t, events).rows && After(t, events).rows[id].state.Some? ==>
              After(t, events).rows[id].state == LastWrite(t.rows.Keys, events, id, StatusOf(t, id))
    decreases |events|
  {
    if events != [] {
      OneEvent(t, events[0]);
      OneRegister(Happen(t, events[0]), events[1..], id);
    }
  }

  /** Rows whose state is NULL never become more: none is ever added. */
  lemma {:induction false} NullsNeverRise(t: Table, events: seq<Event>)
    requires TableSynced(t) && IsHistory(t, events)
    ensures NullRows(After(t, events)) <= NullRows(t)
    decreases |events|
  {
    if events != [] {
      OneEvent(t, events[0]);
      NullsNeverRise(Happen(t, events[0]), events[1..]);
    }
  }

  /** Once the check is validated, both columns agree on every row in every later state. */
  lemma {:induction false} ValidatedForEver(t: Table, events: seq<Event>)
    requires TableSynced(t) && t.check == Valid && NullRows(t) == {} && IsHistory(t, events)
    ensures After(t, events).check == Valid
    ensures forall id :: id in After(t, events).rows ==> Agrees(After(t, events).rows[id])
    decreases |events|
  {
    if events == [] {
      assert forall id :: id in t.rows ==> id !in NullRows(t);
    } else {
      OneEvent(t, events[0]);
      ValidatedForEver(Happen(t, events[0]), events[1..]);
    }
  }

  /** Validation succeeds exactly when no state is NULL, and then nothing is. */
  lemma ValidateIffComplete(t: Table)
    requires t.check == NotValid && TableSynced(t)
    ensures Happen(t, Validate).check == Valid <==> forall id :: id in t.rows ==> Agrees(t.rows[id])
  {
    if NullRows(t) == {} {
      assert forall id :: id in t.rows ==> id !in NullRows(t);
    }
  }

  function TotalFilled(events: seq<Event>): nat
    decreases |events|
  {
    if events == [] then 0
    else (if events[0].Fill? then |events[0].ids| else 0) + TotalFilled(events[1..])
  }

  /** Each row is backfilled at most once, whatever else is written meanwhile: all batches
      together fill no more rows than were NULL at the start. */
  lemma {:induction false} EachRowFilledOnce(t: Table, events: seq<Event>)
    requires TableSynced(t) && IsHistory(t, events)
    ensures TotalFilled(events) + |NullRows(After(t, events))| <= |NullRows(t)|
    decreases |events|
  {
    if events != [] {
      var t1 := Happen(t, events[0]);
      OneEvent(t, events[0]);
      EachRowFilledOnce(t1, events[1..]);
      if events[0].Fill? {
        FillShrinks(t, events[0].ids);
      } else {
        SubsetSize(NullRows(t1), NullRows(t));
      }
    }
  }

  /** A batch writes each of its rows' status into its state, and touches nothing else. */
  lemma FillTakesEffect(t: Table, ids: set<nat>)
    requires ids <= NullRows(t)
    ensures Filled(t, ids).check == t.check && Filled(t, ids).rows.Keys == t.rows.Keys
    ensures forall id :: id in t.rows ==>
              var row := t.rows[id];
              Filled(t, ids).rows[id] == if id in ids then Row(row.status, Some(row.status)) else row
  {
    assert Filled(t, ids).rows.Keys == t.rows.Keys;
  }

  lemma FillShrinks(t: Table, ids: set<nat>)
    requires ids <= NullRows(t)
    ensures NullRows(Filled(t, ids)) == NullRows(t) - ids
    ensures |NullRows(Filled(t, ids))| == |NullRows(t)| - |ids|
  {
    assert NullRows(Filled(t, ids)) == NullRows(t) - ids;
  }

  lemma SubsetSize(a: set<nat>, b: set<nat>)
    requires a <= b
    ensures |a| <= |b|
  {
    if a != {} {
      var x :| x in a;
      SubsetSize(a - {x}, b - {x});
    }
  }

  /* ---- the backfill loop ---- */

  function ApplyAll(t: Table, writes: seq<Write>): Table {
    if writes == [] then t else Apply(ApplyAll(t, writes[..|writes| - 1]), writes[|writes| - 1])
  }

  lemma {:induction false} WritesKeep(t: Table, writes: seq<Write>)
    requires TableSynced(t)
    ensures TableSynced(ApplyAll(t, writes)) && NullRows(ApplyAll(t, writes)) <= NullRows(t)
    ensures |NullRows(ApplyAll(t, writes))| <= |NullRows(t)|
  {
    if writes != [] {
      WritesKeep(t, writes[..|writes| - 1]);
      OneEvent(ApplyAll(t, writes[..|writes| - 1]), By(writes[|writes| - 1]));
    }
    SubsetSize(NullRows(ApplyAll(t, writes)), NullRows(t));
  }

  function CeilDiv(n: nat, d: nat): nat
    requires d > 0
  {
    (n + d - 1) / d
  }

  /** What is left of n rows after k full batches. */
  function Remaining(n: nat, k: nat): nat {
    if BATCH * k < n then n - BATCH * k else 0
  }

  /** k batches have begun with rows left. */
  predicate Needed(n: nat, k: nat) {
    k == 0 || BATCH * (k - 1) < n
  }

  lemma OneBatch(n: nat, k: nat, left: nat, taken: nat)
    requires left <= Remaining(n, k) && taken == (if left <= BATCH then left else BATCH) && taken > 0
    ensures left - taken <= Remaining(n, k + 1) && Needed(n, k + 1)
    ensures left == Remaining(n, k) ==> left - taken == Remaining(n, k + 1)
  {
  }

  lemma CeilBounds(n: nat, k: nat)
    requires Needed(n, k)
    ensures k <= CeilDiv(n, BATCH)
    ensures Remaining(n, k) == 0 ==> k == CeilDiv(n, BATCH)
  {
  }

  ghost predicate NeverLocked(locked: nat -> set<nat>) {
    forall k :: locked(k) == {}
  }

  ghost predicate NeverWritten(others: nat -> seq<Write>) {
    forall k :: others(k) == []
  }

  lemma NotLockedNow(locked: nat -> set<nat>, k: nat)
    requires NeverLocked(locked)
    ensures locked(k) == {}
  {
  }

  lemma NotWrittenNow(others: nat -> seq<Write>, k: nat)
    requires NeverWritten(others)
    ensures others(k) == []
  {
  }

  /** The backfill after k batches that found rows. `free`: no row is ever locked; `quiet`: no
      other session writes. */
  ghost predicate Going(start: Table, t: Table, k: nat, free: bool, quiet: bool) {
    var total, left := |NullRows(start)|, |NullRows(t)|;
    && TableSynced(t) && NullRows(t) <= NullRows(start)
    && (free ==> left <= Remaining(total, k) && Needed(total, k))
    && (free && quiet ==> left == Remaining(total, k) && t == Filled(start, NullRows(start) - NullRows(t)))
  }

  lemma BatchSize()
    ensures BATCH == 5000
  {
  }

  lemma OnlyLockedLeft(nulls: set<nat>, locked: set<nat>, ids: set<nat>)
    requires ids == nulls - locked && |ids| == 0
    ensures nulls <= locked
  {
    assert ids == {};
    forall id | id in nulls
      ensures id in locked
    {
      assert id !in ids;
    }
  }

  lemma BackfillBegins(start: Table, free: bool, quiet: bool)
    requires TableSynced(start)
    ensures Going(start, start, 0, free, quiet)
  {
    FilledNone(start);
  }

  lemma BackfillGoesOn(start: Table, before: Table, ids: set<nat>, others: seq<Write>, k: nat, free: bool, quiet: bool)
    requires Going(start, before, k, free, quiet)
    requires ids <= NullRows(before) && 0 < |ids| <= BATCH && (quiet ==> others == [])
    requires free && |ids| < BATCH ==> ids == NullRows(before)
    ensures var after := ApplyAll(Filled(before, ids), others);
            Going(start, after, k + 1, free, quiet) && |NullRows(after)| < |NullRows(before)|
  {
    hide Filled, Remaining, Needed, NullRows, TableSynced, ApplyAll;
    var mid := Filled(before, ids);
    FillShrinks(before, ids);
    OneEvent(before, Fill(ids));
    WritesKeep(mid, others);
    SubsetSize(ids, NullRows(before));
    if free { OneBatch(|NullRows(start)|, k, |NullRows(before)|, |ids|); }
    if free && quiet {
      FilledTwice(start, before, ids);
      NoWrites(mid);
    }
  }

  lemma BackfillEnds(start: Table, t: Table, ids: set<nat>, k: nat, free: bool, quiet: bool)
    requires Going(start, t, k, free, quiet) && |ids| == 0
    requires free ==> ids == NullRows(t)
    ensures TableSynced(t) && NullRows(t) <= NullRows(start) && Filled(t, ids) == t
    ensures free ==> NullRows(t) == {} && k <= CeilDiv(|NullRows(start)|, BATCH)
    ensures free && quiet ==> t == Filled(start, NullRows(start)) && k == CeilDiv(|NullRows(start)|, BATCH)
  {
    assert ids == {};
    FilledNone(t);
    if free {
      CeilBounds(|NullRows(start)|, k);
      assert NullRows(start) - {} == NullRows(start);
    }
  }

  lemma NoWrites(t: Table)
    ensures ApplyAll(t, []) == t
  {
  }

  class Payouts {
    var rows: map<nat, Row>
    var check: Check

    function Value(): Table
      reads this
    {
      Table(rows, check)
    }

    constructor (t: Table)
      ensures Value() == t
    {
      rows, check := t.rows, t.check;
    }

    method Execute(w: Write) returns (ok: bool)
      modifies this
      ensures Value() == Apply(old(Value()), w) && ok == Stored(old(Value()), w).Some?
      ensures TableSynced(old(Value())) ==>
                (ok <==> Inserts(w) == (w.id !in old(rows)) && !(check != Missing && LeavesNull(old(Value()), w)))
      ensures TableSynced(old(Value())) && ok && !w.Touch? ==> w.id in rows && rows[w.id].status == w.value
    {
      if TableSynced(Value()) { WriteTakesEffect(Value(), w); }
      if !Finds(Value(), w) {
        return false;
      }
      var op := if w.id in rows then Update(rows[w.id]) else Insert;
      var stored := PayoutsSyncState(op, Proposed(Value(), w));
      if stored == None || (check != Missing && stored.value.state == None) {
        return false;
      }
      rows := rows[w.id := stored.value];
      return true;
    }

    /** SELECT ... WHERE state IS NULL LIMIT 5000 FOR UPDATE SKIP LOCKED. */
    method SelectBatch(locked: set<nat>) returns (ids: set<nat>)
      ensures ids <= NullRows(Value()) - locked
      ensures |ids| <= BATCH && (|ids| < BATCH ==> ids == NullRows(Value()) - locked)
    {
      ids := {};
      var open := NullRows(Value()) - locked;
      ghost var all := open;
      while open != {} && |ids| < BATCH
        invariant ids !! open && ids + open == all && |ids| + |open| == |all| && |ids| <= BATCH
        decreases |open|
      {
        var id :| id in open;
        ids, open := ids + {id}, open - {id};
      }
      assert open == {} ==> ids == all;
    }

    /** The DO block of 0010. `locked(k)` are the rows other sessions hold while batch k selects,
        `others(k)` the writes that commit between batch k and the next. It always ends; it leaves
        NULL at most rows locked against its last batch; without locks it leaves none, within the
        number of batches that the NULL rows fill, plus the empty one. */
    method Backfill(locked: nat -> set<nat>, others: nat -> seq<Write>) returns (batches: nat)
      requires TableSynced(Value())
      modifies this
      ensures TableSynced(Value()) && NullRows(Value()) <= old(NullRows(Value()))
      ensures batches >= 1 && NullRows(Value()) <= locked(batches - 1)
      ensures NeverLocked(locked) ==>
                && NullRows(Value()) == {}
                && batches <= CeilDiv(|old(NullRows(Value()))|, BATCH) + 1
      ensures NeverLocked(locked) && NeverWritten(others) ==>
                && Value() == Filled(old(Value()), old(NullRows(Value())))
                && batches == CeilDiv(|old(NullRows(Value()))|, BATCH) + 1
    {
      hide *;
      batches := 0;
      ghost var start := Value();
      ghost var free, quiet := NeverLocked(locked), NeverWritten(others);
      BackfillBegins(start, free, quiet);
      BatchSize();
      while true
        invariant Going(start, Value(), batches, free, quiet)
        decreases |NullRows(Value())|
      {
        ghost var before := Value();
        var ids := SelectBatch(locked(batches));
        FillBatch(ids);
        var n := |ids|;
        if free { NotLockedNow(locked, batches); }
        if quiet { NotWrittenNow(others, batches); }
        batches := batches + 1;
        if n == 0 {
          BackfillEnds(start, before, ids, batches - 1, free, quiet);
          OnlyLockedLeft(NullRows(before), locked(batches - 1), ids);
          return;
        }
        RunOthers(others(batches - 1));
        BackfillGoesOn(start, before, ids, others(batches - 1), batches - 1, free, quiet);
      }
    }

    /** The batch update. */
    method FillBatch(ids: set<nat>)
      modifies this
      ensures Value() == Filled(old(Value()), ids)
    {
      rows := map id | id in rows :: if id in ids then FillRow(rows[id]) else rows[id];
    }

    method RunOthers(writes: seq<Write>)
      modifies this
      ensures Value() == ApplyAll(old(Value()), writes)
    {
      ghost var start := Value();
      for i := 0 to |writes|
        invariant Value() == ApplyAll(start, writes[..i])
      {
        assert writes[..i + 1][..i] == writes[..i];
        var _ := Execute(writes[i]);
      }
      assert writes[..|writes|] == writes;
    }

    /** 0011: add the check unless it is there, then validate it. A failed validation is an error,
        and the runner's transaction undoes both statements. */
    method AddAndValidate() returns (ok: bool)
      modifies this
      ensures ok == (NullRows(old(Value())) == {})
      ensures Value() == if ok then Happen(Happen(old(Value()), AddCheck), Validate) else old(Value())
      ensures ok ==> Value() == old(Value()).(check := Valid)
    {
      var saved := check;
      if check == Missing {
        check := NotValid;
      }
      if NullRows(Value()) != {} {
        check := saved;
        assert NullRows(Value()) == NullRows(old(Value()));
        return false;
      }
      check := Valid;
      return true;
    }
  }

  lemma FilledNone(t: Table)
    ensures Filled(t, {}) == t && NullRows(t) - NullRows(t) == {}
    ensures Filled(t, NullRows(t) - NullRows(t)) == t
  {
    assert Filled(t, {}).rows == t.rows;
  }

  lemma FilledTwice(start: Table, before: Table, ids: set<nat>)
    requires before == Filled(start, NullRows(start) - NullRows(before))
    requires ids <= NullRows(before) <= NullRows(start)
    ensures Filled(before, ids) == Filled(start, NullRows(start) - NullRows(Filled(before, ids)))
  {
    FillShrinks(before, ids);
    assert Filled(before, ids).rows.Keys == Filled(start, NullRows(start) - NullRows(Filled(before, ids))).rows.Keys;
  }
}
