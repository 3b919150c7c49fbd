/** The settlements and payouts tables, one function per SQL transaction
    (app/settle/api.py, app/settle/worker.py, migrations/0007 and 0009). */
module Tables {
  import opened Common

  /** The text of a uuid. */
  type Key = k: string | k != "" witness "0"

  datatype SettlementStatus = Pending | Executing | OtherStatus(text: string)

  datatype Settlement = Settlement(merchantId: int, date: int, amountMinor: int, currency: string,
                                   status: SettlementStatus)

  datatype PayoutState = Queued | Sending | Paid | OtherState(text: string)

  datatype Payout = Payout(settlementId: nat, merchantId: int, amountMinor: int, currency: string,
                           state: PayoutState, key: Option<Key>, bankRef: Option<string>)

  datatype Db = Db(settlements: map<nat, Settlement>, payouts: map<nat, Payout>)

  /** The CHECK and UNIQUE constraints of the settlements table. */
  predicate AcceptsSettlement(db: Db, merchantId: int, date: int, amountMinor: int) {
    amountMinor >= 0 &&
    forall s :: s in db.settlements ==>
                  !(db.settlements[s].merchantId == merchantId && db.settlements[s].date == date)
  }

  /** INSERT of a pending settlement; `sid` comes from the id sequence. A violated constraint
      rolls the transaction back. */
  function CreateTx(db: Db, sid: nat, merchantId: int, date: int, amountMinor: int, currency: string): Db {
    if AcceptsSettlement(db, merchantId, date, amountMinor)
    then db.(settlements := db.settlements[sid := Settlement(merchantId, date, amountMinor, currency, Pending)])
    else db
  }

  /** The conditional update of the settlement and the insert of its payout, in one
      transaction. None is the 409: no pending settlement has this id. */
  function ExecuteTx(db: Db, sid: nat, pid: nat): (Db, Option<Payout>) {
    if sid in db.settlements && db.settlements[sid].status == Pending then
      var s := db.settlements[sid];
      var row := Payout(sid, s.merchantId, s.amountMinor, s.currency, Queued, None, None);
      (Db(db.settlements[sid := s.(status := Executing)], db.payouts[pid := row]), Some(row))
    else (db, None)
  }

  /** KeyTaken is the violation of the unique index on the idempotency key. */
  datatype ClaimResult = Claimed(key: Key) | NotClaimed(state: Option<PayoutState>) | KeyTaken

  predicate KeyInUse(db: Db, pid: nat, key: Key) {
    exists q :: q in db.payouts && q != pid && db.payouts[q].key == Some(key)
  }

  function ClaimTx(db: Db, pid: nat, proposed: Key): (Db, ClaimResult) {
    if pid in db.payouts && (db.payouts[pid].state == Queued || db.payouts[pid].state == Sending) then
      var row := db.payouts[pid];
      var key := if row.key.Some? then row.key.value else proposed;
      if KeyInUse(db, pid, key) then (db, KeyTaken)
      else (db.(payouts := db.payouts[pid := row.(state := Sending, key := Some(key))]), Claimed(key))
    else (db, NotClaimed(if pid in db.payouts then Some(db.payouts[pid].state) else None))
  }

  /** The claim law: a row that is queued or being sent, with a key that no other row has (its own, or
      the proposed one if it has none), is claimed under that key and is then being sent. Another key
      is never answered, and a row in another state, or with a taken key, stays as it is. */
  lemma ClaimLaw(db: Db, pid: nat, proposed: Key)
    ensures var (db', r) := ClaimTx(db, pid, proposed);
            var claimable := pid in db.payouts && db.payouts[pid].state in {Queued, Sending};
            var key := if pid in db.payouts && db.payouts[pid].key.Some? then db.payouts[pid].key.value else proposed;
            var taken := exists q :: q in db.payouts && q != pid && db.payouts[q].key == Some(key);
            && (claimable && !taken ==>
                  && r == Claimed(key)
                  && db' == Db(db.settlements,
                               db.payouts[pid := db.payouts[pid].(state := Sending, key := Some(key))]))
            && (claimable && taken ==> r == KeyTaken && db' == db)
            && (!claimable ==>
                  r == NotClaimed(if pid in db.payouts then Some(db.payouts[pid].state) else None) && db' == db)
  {
  }

  function MarkPaidTx(db: Db, pid: nat, bankRef: string): Db {
    if pid in db.payouts && db.payouts[pid].state == Sending
    then db.(payouts := db.payouts[pid := db.payouts[pid].(state := Paid, bankRef := Some(bankRef))])
    else db
  }

  /** Only the row `id` may differ or be new. */
  predicate OthersUnchanged<R(==)>(before: map<nat, R>, after: map<nat, R>, id: nat) {
    (forall k :: k in after && k != id ==> k in before && after[k] == before[k]) &&
    (forall k :: k in before ==> k in after)
  }

  /** The two tables as the database holds them; every method is one committed transaction. */
  class Postgres {
    var settlements: map<nat, Settlement>
    var payouts: map<nat, Payout>

    function Value(): Db
      reads this
    {
      Db(settlements, payouts)
    }

    constructor ()
      ensures Value() == Db(map[], map[])
    {
      settlements, payouts := map[], map[];
    }

    method CreateSettlement(sid: nat, merchantId: int, date: int, amountMinor: int, currency: string)
      returns (ok: bool)
      requires sid !in settlements
      modifies this
      ensures Value() == CreateTx(old(Value()), sid, merchantId, date, amountMinor, currency)
      ensures ok == AcceptsSettlement(old(Value()), merchantId, date, amountMinor)
      ensures ok <==> amountMinor >= 0 &&
                        forall s :: s in old(settlements) ==>
                          old(settlements)[s].merchantId != merchantId || old(settlements)[s].date != date
      ensures settlements ==
              if ok then old(settlements)[sid := Settlement(merchantId, date, amountMinor, currency, Pending)]
              else old(settlements)
      ensures payouts == old(payouts)
      ensures forall s :: s in old(settlements) ==> s in settlements && settlements[s] == old(settlements)[s]
    {
      ok := AcceptsSettlement(Value(), merchantId, date, amountMinor);
      if ok {
        settlements := settlements[sid := Settlement(merchantId, date, amountMinor, currency, Pending)];
      }
    }

    method ExecuteSettlement(sid: nat, pid: nat) returns (row: Option<Payout>)
      requires pid !in payouts
      modifies this
      ensures (Value(), row) == ExecuteTx(old(Value()), sid, pid)
      ensures row.Some? <==> sid in old(settlements) && old(settlements)[sid].status == Pending
      ensures sid in settlements && row.Some? ==> settlements[sid] == old(settlements)[sid].(status := Executing)
      ensures row.Some? ==>
                var s := old(settlements)[sid];
                && row.value == Payout(sid, s.merchantId, s.amountMinor, s.currency, Queued, None, None)
                && payouts == old(payouts)[pid := row.value]
      ensures OthersUnchanged(old(payouts), payouts, pid) && OthersUnchanged(old(settlements), settlements, sid)
    {
      if sid !in settlements || settlements[sid].status != Pending {
        return None;
      }
      var s := settlements[sid];
      settlements := settlements[sid := s.(status := Executing)];
      var payout := Payout(sid, s.merchantId, s.amountMinor, s.currency, Queued, None, None);
      payouts := payouts[pid := payout];
      return Some(payout);
    }

    method Claim(pid: nat, proposed: Key) returns (r: ClaimResult)
      modifies this
      ensures (Value(), r) == ClaimTx(old(Value()), pid, proposed)
      ensures OthersUnchanged(old(payouts), payouts, pid) && settlements == old(settlements)
      ensures pid in old(payouts) && old(payouts)[pid].key.Some? ==> payouts[pid].key == old(payouts)[pid].key
      ensures r.Claimed? ==>
                payouts[pid].key == Some(r.key) && payouts[pid].state == Sending && !KeyInUse(Value(), pid, r.key)
      ensures !r.Claimed? ==> Value() == old(Value())
      ensures var key := if pid in old(payouts) && old(payouts)[pid].key.Some? then old(payouts)[pid].key.value
                         else proposed;
              pid in old(payouts) && old(payouts)[pid].state in {Queued, Sending} &&
              (forall q :: q in old(payouts) && q != pid ==> old(payouts)[q].key != Some(key)) ==>
                r == Claimed(key)
    {
      if pid in payouts && payouts[pid].state in {Queued, Sending} {
        var key := proposed;
        if payouts[pid].key.Some? {
          key := payouts[pid].key.value;
        }
        if KeyInUse(Value(), pid, key) {
          return KeyTaken;
        }
        payouts := payouts[pid := payouts[pid].(state := Sending, key := Some(key))];
        return Claimed(key);
      }
      return NotClaimed(if pid in payouts then Some(payouts[pid].state) else None);
    }

    method MarkPaid(pid: nat, bankRef: string)
      modifies this
      ensures Value() == MarkPaidTx(old(Value()), pid, bankRef)
      ensures OthersUnchanged(old(payouts), payouts, pid) && settlements == old(settlements)
      ensures pid in old(payouts) && old(payouts)[pid].state == Sending ==>
                payouts[pid] == old(payouts)[pid].(state := Paid, bankRef := Some(bankRef))
      ensures pid in old(payouts) ==>
                payouts[pid].key == old(payouts)[pid].key &&
                (old(payouts)[pid].state != Sending ==> payouts[pid] == old(payouts)[pid])
    {
      if pid in payouts && payouts[pid].state == Sending {
        payouts := payouts[pid := payouts[pid].(state := Paid, bankRef := Some(bankRef))];
      }
    }
  }
}
