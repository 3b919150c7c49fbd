/** Conservation of money between the bank's ledger, the payouts and the settlements. */
module Money {
  import opened Common
  import Bank
  import opened Tables
  import opened Delivery
  import opened Protocol
  import opened Invariants
  import opened Preservation
  import opened Safety

  ghost function LedgerTotal(ledger: seq<Bank.Entry>): int {
    if ledger == [] then 0 else LedgerTotal(ledger[..|ledger| - 1]) + ledger[|ledger| - 1].amountMinor
  }

  /** Paid, or being sent with a key the bank has already accepted. */
  ghost predicate MoneyMoved(s: State, p: nat)
    requires p in s.db.payouts
  {
    var row := s.db.payouts[p];
    row.state == Paid || (row.state == Sending && row.key.Some? && row.key.value in s.books.byKey)
  }

  ghost function MovedAmounts(s: State): map<nat, int> {
    map p | p in s.db.payouts && MoneyMoved(s, p) :: s.db.payouts[p].amountMinor
  }

  ghost function ExecutedAmounts(s: State): map<nat, int> {
    map sid | sid in s.db.settlements && s.db.settlements[sid].status == Executing ::
      s.db.settlements[sid].amountMinor
  }

  ghost function InLedger(db: Db, ledger: seq<Bank.Entry>): map<nat, int> {
    map p | p in db.payouts && Bank.Count(ledger, Reference(p)) > 0 :: db.payouts[p].amountMinor
  }

  lemma OneMoreEntry(db: Db, init: seq<Bank.Entry>, e: Bank.Entry, p: nat)
    requires p in db.payouts && PaysFor(e, p, db.payouts[p])
    requires Bank.Count(init, Reference(p)) == 0
    ensures InLedger(db, init + [e]) == InLedger(db, init)[p := e.amountMinor]
    ensures p !in InLedger(db, init)
  {
    hide Bank.Count, Reference;
    forall q | q in db.payouts
      ensures Bank.Count(init + [e], Reference(q)) == Bank.Count(init, Reference(q)) + (if q == p then 1 else 0)
    {
      CountsAfterPost(init, e, p, q);
    }
    assert InLedger(db, init + [e]).Keys == InLedger(db, init).Keys + {p};
  }

  ghost predicate PaysSome(db: Db, e: Bank.Entry) {
    exists p :: p in db.payouts && PaysFor(e, p, db.payouts[p])
  }

  lemma NewReference(init: seq<Bank.Entry>, e: Bank.Entry)
    requires Bank.DistinctReferences(init + [e])
    ensures Bank.DistinctReferences(init) && Bank.Count(init, e.reference) == 0
  {
    var all := init + [e];
    assert forall i :: 0 <= i < |init| ==> all[i] == init[i];
    assert all[|init|] == e;
    assert forall i :: 0 <= i < |init| ==> init[i].reference != e.reference;
  }

  lemma {:induction false} LedgerTotalIsPerPayout(db: Db, ledger: seq<Bank.Entry>)
    requires Bank.DistinctReferences(ledger)
    requires forall e :: e in ledger ==> PaysSome(db, e)
    ensures LedgerTotal(ledger) == MapSum(InLedger(db, ledger))
  {
    if ledger == [] {
      assert InLedger(db, ledger) == map[];
      assert MapSum<nat>(map[]) == 0;
    } else {
      var last := |ledger| - 1;
      var init, e := ledger[..last], ledger[last];
      assert ledger == init + [e] && e in ledger;
      NewReference(init, e);
      hide Bank.Count, Bank.DistinctReferences, InLedger, MapSum;
      LedgerTotalIsPerPayout(db, init);
      assert PaysSome(db, e);
      var p :| p in db.payouts && PaysFor(e, p, db.payouts[p]);
      OneMoreEntry(db, init, e, p);
      MapSumUpdate(InLedger(db, init), p, e.amountMinor);
    }
  }

  /** Renaming keys one to one into a larger map of naturals can only add. */
  lemma {:induction false} MapSumInjection(small: map<nat, int>, big: map<nat, int>, to: map<nat, nat>)
    requires forall p :: p in small ==> p in to && to[p] in big && small[p] == big[to[p]]
    requires forall p, q :: p in small && q in small && p != q ==> to[p] != to[q]
    requires forall k :: k in big ==> 0 <= big[k]
    ensures MapSum(small) <= MapSum(big)
    decreases |small|
  {
    if small == map[] {
      MapSumMonotone(small, big);
    } else {
      var p := Pick(small);
      assert |(small - {p}).Keys| < |small.Keys| by { assert (small - {p}).Keys == small.Keys - {p}; }
      MapSumInjection(small - {p}, big - {to[p]}, to);
      MapSumRemove(big, to[p]);
    }
  }

  lemma MovedIsInLedger(s: State)
    requires Inv(s)
    ensures MovedAmounts(s) == InLedger(s.db, s.books.ledger)
  {
    forall p | p in s.db.payouts
      ensures MoneyMoved(s, p) <==> Bank.Count(s.books.ledger, Reference(p)) > 0
    {
      InLedgerIffAccepted(s, p);
      MovedIffAccepted(s, p);
      hide *;
    }
    hide Inv, MoneyMoved, Bank.Count, Reference;
  }

  /** The bank has paid out exactly the sum of the paid payouts and of the sending ones whose key
      it has accepted, and never more than the executed settlements owe. */
  lemma Conservation(s: State, maxAttempts: int)
    requires Reachable(s, maxAttempts)
    ensures LedgerTotal(s.books.ledger) == MapSum(MovedAmounts(s))
    ensures LedgerTotal(s.books.ledger) <= MapSum(ExecutedAmounts(s))
  {
    ReachableInv(s, maxAttempts);
    AtMostOncePerReference(s, maxAttempts);
    assert Bank.DistinctReferences(s.books.ledger) && DbInv(s.db);
    hide Inv, DbInv, Reachable, LedgerTotal, MapSum, MovedAmounts, ExecutedAmounts, InLedger, Bank.DistinctReferences;
    LedgerTotalIsPerPayout(s.db, s.books.ledger);
    MovedIsInLedger(s);
    MovedWithinExecuted(s);
  }

  lemma MovedIffAccepted(s: State, p: nat)
    requires DbInv(s.db) && PaidAgrees(s.db, s.books) && p in s.db.payouts
    ensures MoneyMoved(s, p) <==> s.db.payouts[p].key.Some? && s.db.payouts[p].key.value in s.books.byKey
  {
    assert RowOk(s.db, p);
    assert s.db.payouts[p].state == Paid ==> Recorded(s.db.payouts[p], s.books);
  }

  /** Each payout whose money moved takes its amount from an executed settlement of its own, so
      together they take no more than was executed. */
  lemma MovedWithinExecuted(s: State)
    requires DbInv(s.db)
    ensures forall p :: p in MovedAmounts(s) ==>
              var sid := s.db.payouts[p].settlementId;
              sid in ExecutedAmounts(s) && MovedAmounts(s)[p] == ExecutedAmounts(s)[sid]
    ensures forall p, q :: p in s.db.payouts && q in s.db.payouts && p != q ==>
                             s.db.payouts[p].settlementId != s.db.payouts[q].settlementId
    ensures MapSum(MovedAmounts(s)) <= MapSum(ExecutedAmounts(s))
  {
    var to := map p | p in s.db.payouts :: s.db.payouts[p].settlementId;
    assert forall p :: p in s.db.payouts ==> RowOk(s.db, p);
    assert forall sid :: sid in ExecutedAmounts(s) ==> ExecutedAmounts(s)[sid] >= 0;
    hide MapSum, MoneyMoved;
    MapSumInjection(MovedAmounts(s), ExecutedAmounts(s), to);
  }
}
