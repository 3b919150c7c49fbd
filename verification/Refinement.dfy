/** The payout service, with all its retries and crashes, is the machine in which each executed
    settlement is owed and then paid once. */
module Refinement {
  import Bank
  import opened Tables
  import opened Queues
  import opened Delivery
  import opened Protocol
  import opened Invariants
  import opened Preservation
  import opened Safety

  /* ---- the abstract machine ---- */

  datatype Debt = Debt(settlement: nat, creditor: int, amount: int, currency: string, payments: nat)

  datatype Move = Stutter | Incur(id: nat, debt: Debt) | PayOut(id: nat)

  type Debts = map<nat, Debt>

  ghost predicate CanMove(d: Debts, m: Move) {
    match m
    case Stutter => true
    case Incur(id, debt) =>
      id !in d && debt.payments == 0 && forall o :: o in d ==> d[o].settlement != debt.settlement
    case PayOut(id) => id in d && d[id].payments == 0
  }

  function Apply(d: Debts, m: Move): Debts {
    match m
    case Stutter => d
    case Incur(id, debt) => d[id := debt]
    case PayOut(id) => if id in d then d[id := d[id].(payments := d[id].payments + 1)] else d
  }

  ghost predicate IsHistory(d: Debts, moves: seq<Move>)
    decreases |moves|
  {
    moves == [] || (CanMove(d, moves[0]) && IsHistory(Apply(d, moves[0]), moves[1..]))
  }

  function Play(d: Debts, moves: seq<Move>): Debts
    decreases |moves|
  {
    if moves == [] then d else Play(Apply(d, moves[0]), moves[1..])
  }

  /* ---- the abstraction ---- */

  ghost function DebtOf(row: Payout, payments: nat): Debt {
    Debt(row.settlementId, row.merchantId, row.amountMinor, row.currency, payments)
  }

  /** What is owed, and how often the bank has paid it. */
  ghost function Abstract(s: State): Debts {
    map p | p in s.db.payouts :: DebtOf(s.db.payouts[p], Bank.Count(s.books.ledger, Reference(p)))
  }

  ghost function Owner(db: Db, key: Key): nat
    requires exists p :: HasKey(db, p, key)
    ensures HasKey(db, Owner(db, key), key)
  {
    var p: nat :| HasKey(db, p, key); p
  }

  /** Executing a settlement incurs a debt; the bank accepting a key for the first time pays one;
      nothing else is visible. */
  ghost function MoveOf(s: State, a: Action): Move {
    if a.CommitExecute? && ExecuteTx(s.db, a.settlement, a.newPayout).1.Some? then
      Incur(a.newPayout, DebtOf(ExecuteTx(s.db, a.settlement, a.newPayout).1.value, 0))
    else if a.BankHandles? && a.request.key !in s.books.byKey && (exists p :: HasKey(s.db, p, a.request.key)) then
      PayOut(Owner(s.db, a.request.key))
    else Stutter
  }

  /** Steps that add no payout and no ledger entry are invisible. */
  lemma InvisibleStep(s: State, s': State)
    requires s'.books.ledger == s.books.ledger && s'.db.payouts.Keys == s.db.payouts.Keys
    requires forall p :: p in s.db.payouts ==> RowGrows(s.db.payouts[p], s'.db.payouts[p])
    ensures Abstract(s') == Abstract(s)
  {
  }

  /** The bank never heard of a payout that does not exist. */
  lemma UnknownPayoutUnpaid(s: State, pid: nat)
    requires BooksInv(s.db, s.books) && pid !in s.db.payouts
    ensures Bank.Count(s.books.ledger, Reference(pid)) == 0
  {
    if i :| 0 <= i < |s.books.ledger| && s.books.ledger[i].reference == Reference(pid) {
      assert EntryKeyed(s.books, s.books.ledger[i]);
      var k: Key :| k in s.books.byKey && s.books.byKey[k] == s.books.ledger[i];
      assert KeyOk(s.db, s.books, k);
      var q :| HasKey(s.db, q, k) && PaysFor(s.books.byKey[k], q, s.db.payouts[q]);
      ReferenceInjective(pid, q);
      assert false;
    }
  }

  lemma PendingHasNoPayout(db: Db, sid: nat, p: nat)
    requires DbInv(db) && p in db.payouts && sid in db.settlements && db.settlements[sid].status == Pending
    ensures db.payouts[p].settlementId != sid
  {
    assert RowOk(db, p);
  }

  lemma AbstractAfterCommit(s: State, s': State, pid: nat, row: Payout)
    requires s'.db.payouts == s.db.payouts[pid := row] && s'.books == s.books && pid !in s.db.payouts
    requires Bank.Count(s.books.ledger, Reference(pid)) == 0
    ensures Abstract(s') == Abstract(s)[pid := DebtOf(row, 0)]
    ensures Abstract(s).Keys == s.db.payouts.Keys
    ensures forall p :: p in s.db.payouts ==> Abstract(s)[p].settlement == s.db.payouts[p].settlementId
  {
    hide Bank.Count, Reference;
  }

  lemma AbstractAfterPay(s: State, s': State, pid: nat)
    requires s'.db == s.db && pid in s.db.payouts
    requires Bank.Count(s.books.ledger, Reference(pid)) == 0
    requires forall o :: o in s.db.payouts ==>
               Bank.Count(s'.books.ledger, Reference(o)) ==
               Bank.Count(s.books.ledger, Reference(o)) + (if o == pid then 1 else 0)
    ensures CanMove(Abstract(s), PayOut(pid)) && Abstract(s') == Apply(Abstract(s), PayOut(pid))
  {
    hide Bank.Count, Reference;
    var d, d' := Abstract(s), Abstract(s');
    assert d'.Keys == d.Keys == s.db.payouts.Keys;
    forall o | o in d'
      ensures d'[o] == Apply(d, PayOut(pid))[o]
    {
    }
  }

  lemma CommitRefines(s: State, a: Action)
    requires Inv(s) && Enabled(s, a) && a.CommitExecute?
    ensures CanMove(Abstract(s), MoveOf(s, a))
    ensures Abstract(Step(s, a)) == Apply(Abstract(s), MoveOf(s, a))
  {
    Parts(s);
    hide Inv, DbInv, BooksInv, PaidAgrees, WireInv, TextsOk, UnsentInv, NotLost, TasksInv, TaskOk;
    hide Bank.Count, Reference, Abstract;
    var s' := Step(s, a);
    var (db, row) := ExecuteTx(s.db, a.settlement, a.newPayout);
    if row.Some? {
      forall p | p in s.db.payouts
        ensures s.db.payouts[p].settlementId != a.settlement
      {
        PendingHasNoPayout(s.db, a.settlement, p);
      }
      UnknownPayoutUnpaid(s, a.newPayout);
      AbstractAfterCommit(s, s', a.newPayout, row.value);
    } else {
      InvisibleStep(s, s');
    }
  }

  lemma NewKeyPays(s: State, a: Action)
    requires Inv(s) && Enabled(s, a) && a.BankHandles? && a.request.key !in s.books.byKey
    requires exists p :: HasKey(s.db, p, a.request.key)
    ensures var p := Owner(s.db, a.request.key);
            && a.request.body.reference == Reference(p)
            && Bank.Count(s.books.ledger, Reference(p)) == 0
  {
    var p := Owner(s.db, a.request.key);
    OneBodyPerPayout(s, a.request, p);
    InLedgerIffAccepted(s, p);
  }

  lemma BankRefines(s: State, a: Action)
    requires Inv(s) && Enabled(s, a) && a.BankHandles?
    ensures CanMove(Abstract(s), MoveOf(s, a))
    ensures Abstract(Step(s, a)) == Apply(Abstract(s), MoveOf(s, a))
  {
    hide Inv, Bank.Count, Reference, Abstract;
    BankRequestOwned(s, a);
    var s' := Step(s, a);
    if a.request.key in s.books.byKey {
      InvisibleStep(s, s');
    } else {
      var p := Owner(s.db, a.request.key);
      NewKeyPays(s, a);
      var e := Bank.EntryFor(a.request.body, a.bankRef, a.ts);
      forall o | o in s.db.payouts
        ensures Bank.Count(s'.books.ledger, Reference(o)) ==
                Bank.Count(s.books.ledger, Reference(o)) + (if o == p then 1 else 0)
      {
        CountsAfterPost(s.books.ledger, e, p, o);
      }
      AbstractAfterPay(s, s', p);
    }
  }

  lemma OthersInvisible(s: State, a: Action)
    requires Inv(s) && Enabled(s, a) && !a.CommitExecute? && !a.BankHandles?
    ensures Abstract(Step(s, a)) == Abstract(s) && Step(s, a).books == s.books
  {
    hide Inv, RowGrows, Abstract, TaskOk;
    StepKeeps(s, a);
    SamePayouts(s, a);
    InvisibleStep(s, Step(s, a));
  }

  lemma SamePayouts(s: State, a: Action)
    requires Enabled(s, a) && !a.CommitExecute? && !a.BankHandles?
    ensures Step(s, a).books == s.books && Step(s, a).db.payouts.Keys == s.db.payouts.Keys
  {
    hide Held, WithHeld, IsDueBatch, RetryOrDead, AfterClaim, AfterPay, AfterMark;
    if a.Claim? { ClaimSamePayouts(s.db, s.tasks[a.tid].raw.job.payoutId, a.proposed); }
    hide ClaimTx;
  }

  lemma ClaimSamePayouts(db: Db, pid: nat, proposed: Key)
    ensures ClaimTx(db, pid, proposed).0.payouts.Keys == db.payouts.Keys
  {
  }

  /** Every concrete step is an abstract move or a stutter; the paying move is the ledger append. */
  lemma StepRefines(s: State, a: Action)
    requires Inv(s) && Enabled(s, a)
    ensures CanMove(Abstract(s), MoveOf(s, a))
    ensures Abstract(Step(s, a)) == Apply(Abstract(s), MoveOf(s, a))
    ensures MoveOf(s, a).PayOut? <==> Step(s, a).books.ledger != s.books.ledger
  {
    hide Inv, Abstract, Bank.Count;
    if a.CommitExecute? {
      CommitRefines(s, a);
    } else if a.BankHandles? {
      BankRefines(s, a);
      BankRequestOwned(s, a);
    } else {
      OthersInvisible(s, a);
    }
  }

  lemma BankRequestOwned(s: State, a: Action)
    requires Inv(s) && Enabled(s, a) && a.BankHandles?
    ensures exists p :: HasKey(s.db, p, a.request.key)
  {
    assert RequestOk(s.db, a.request);
  }

  /** Whole runs: every run of the service is a history of the abstract machine, whatever
      crashes, times out or is redelivered. */
  lemma {:induction false} RunRefines(s: State, actions: seq<Action>) returns (moves: seq<Move>)
    requires Inv(s) && IsRun(s, actions)
    ensures |moves| == |actions| && IsHistory(Abstract(s), moves)
    ensures Play(Abstract(s), moves) == Abstract(After(s, actions))
    decreases |actions|
  {
    hide Inv;
    if actions == [] {
      moves := [];
    } else {
      StepRefines(s, actions[0]);
      StepKeeps(s, actions[0]);
      var rest := RunRefines(Step(s, actions[0]), actions[1..]);
      moves := [MoveOf(s, actions[0])] + rest;
      assert moves[1..] == rest;
    }
  }

  lemma ServiceRefines(maxAttempts: int, actions: seq<Action>) returns (moves: seq<Move>)
    requires IsRun(Init(maxAttempts), actions)
    ensures IsHistory(map[], moves) && Play(map[], moves) == Abstract(After(Init(maxAttempts), actions))
  {
    InitInv(maxAttempts);
    assert Abstract(Init(maxAttempts)) == map[];
    moves := RunRefines(Init(maxAttempts), actions);
  }

  /* ---- what the abstract machine guarantees ---- */

  ghost predicate Sound(d: Debts) {
    && (forall p :: p in d ==> d[p].payments <= 1)
    && (forall p, q :: p in d && q in d && p != q ==> d[p].settlement != d[q].settlement)
  }

  /** In every history each settlement is owed at most once and each debt paid at most once, and
      no debt is forgotten or altered. */
  lemma {:induction false} HistoriesAreSound(d: Debts, moves: seq<Move>)
    requires Sound(d) && IsHistory(d, moves)
    ensures Sound(Play(d, moves))
    ensures forall p :: p in d ==> p in Play(d, moves) && d[p].payments <= Play(d, moves)[p].payments &&
                                   Play(d, moves)[p].(payments := 0) == d[p].(payments := 0)
    decreases |moves|
  {
    if moves != [] {
      HistoriesAreSound(Apply(d, moves[0]), moves[1..]);
    }
  }
}
