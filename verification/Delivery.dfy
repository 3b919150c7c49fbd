/** One delivery of a job: where its thread stands, and what each remote call it makes does to
    its stand and to the stores (app/settle/worker.py: handle, process, _retry_or_dead). */
module Delivery {
  import opened Common
  import Bank
  import opened Tables
  import opened Queues

  datatype Config = Config(maxAttempts: int, retryBase: real, retryMax: real, concurrency: int)

  const DEFAULTS := Config(8, 2.0, 300.0, 4)

  datatype Failure =
    | BankFailure(retryable: bool, text: string)
    | PermanentFailure(text: string)
    | StoreFailure(text: string)
    | UnexpectedFailure(text: string)

  /** Only a bank rejection and an impossible payout state are given up at once. */
  predicate Retryable(f: Failure) {
    match f
    case BankFailure(retryable, _) => retryable
    case PermanentFailure(_) => false
    case StoreFailure(_) => true
    case UnexpectedFailure(_) => true
  }

  datatype PayRequest = PayRequest(key: Key, body: Bank.PayoutIn)

  datatype Pc =
    | Fetched                          // handed to the pool, nothing done yet
    | Holding(key: Key)                // claim committed
    | Calling(request: PayRequest)     // the bank call is out
    | Replied(bankRef: string)         // the bank accepted, not yet recorded
    | Acking                           // handle returned; the payout is paid
    | Failing(failure: Failure)        // an exception is being turned into a retry or a dead letter

  /** The reference the bank sees for a payout. */
  function Reference(pid: nat): string {
    "payout-" + Decimal(pid)
  }

  lemma ReferenceInjective(p: nat, q: nat)
    requires Reference(p) == Reference(q)
    ensures p == q
  {
    assert Reference(p)[7..] == Decimal(p);
    assert Reference(q)[7..] == Decimal(q);
    DecimalInjective(p, q);
  }

  /** The number that a text of decimal digits says. */
  function Read(digits: string): nat {
    if digits == [] then 0
    else
      var d := digits[|digits| - 1];
      10 * Read(digits[..|digits| - 1]) + if '0' <= d <= '9' then d as int - '0' as int else 0
  }

  lemma {:induction false} DecimalReads(n: nat)
    ensures Read(Decimal(n)) == n
    ensures forall i :: 0 <= i < |Decimal(n)| ==> '0' <= Decimal(n)[i] <= '9'
  {
    var s := Decimal(n);
    if n >= 10 {
      DecimalReads(n / 10);
      assert s[..|s| - 1] == Decimal(n / 10);
    } else {
      assert Read(s[..0]) == 0;
    }
  }

  /** The reference is "payout-" and the row's id in decimal digits. */
  lemma ReferenceReads(pid: nat)
    ensures var r := Reference(pid); |r| > 7 && r[..7] == "payout-" && Read(r[7..]) == pid
    ensures forall i :: 7 <= i < |Reference(pid)| ==> '0' <= Reference(pid)[i] <= '9'
  {
    DecimalReads(pid);
    assert Reference(pid)[7..] == Decimal(pid);
    hide Decimal, Read;
  }

  function RequestFor(job: Job, key: Key): PayRequest {
    PayRequest(key, Bank.PayoutIn(job.merchantId, job.amountMinor, job.currency, Reference(job.payoutId)))
  }

  function AfterClaim(r: ClaimResult, fault: Fault): Pc {
    if fault != Works then Failing(StoreFailure(fault.error))
    else match r
      case Claimed(key) => Holding(key)
      case KeyTaken => Failing(StoreFailure("duplicate idempotency key"))
      case NotClaimed(state) =>
        if state == Some(Paid) then Acking else Failing(PermanentFailure("cannot send"))
  }

  function AfterPay(r: Bank.PayResult): Pc {
    match r
    case Ok(ref) => Replied(ref)
    case BankError(retryable) => Failing(BankFailure(retryable, "bank error"))
    case Unexpected => Failing(UnexpectedFailure("bad answer"))
  }

  function AfterMark(fault: Fault): Pc {
    if fault != Works then Failing(StoreFailure(fault.error)) else Acking
  }

  /* ---- retry or dead letter ---- */

  function Truncated(text: string): string {
    if |text| <= 300 then text else text[..300]
  }

  /** The next copy of a job that failed: one attempt more, everything owed unchanged. */
  function Again(job: Job, failure: Failure): Job {
    job.(attempt := job.attempt + 1, lastError := Some(Truncated(failure.text)))
  }

  predicate GoesToRetry(job: Job, failure: Failure, maxAttempts: int) {
    Retryable(failure) && job.attempt + 1 < maxAttempts
  }

  /** The one atomic Redis step that ends a failed delivery. */
  function RetryOrDead(r: Redis, w: WorkerId, job: Job, failure: Failure, maxAttempts: int, due: real): Redis {
    var again := JobText(Again(job, failure));
    if GoesToRetry(job, failure, maxAttempts) then ScheduleRetry(r, w, JobText(job), again, due)
    else DeadLetter(r, w, JobText(job), again)
  }

  /* ---- backoff ---- */

  function PowerOfTwo(e: int): real {
    if e >= 0 then Pow2(e) as real else 1.0 / (Pow2(-e) as real)
  }

  function Delay(c: Config, attempt: int): real {
    var d := c.retryBase * PowerOfTwo(attempt - 1);
    if d < c.retryMax then d else c.retryMax
  }

  function Backoff(c: Config, attempt: int, jitter: real): real {
    Delay(c, attempt) * jitter
  }

  function SumReals(s: seq<real>): real {
    if s == [] then 0.0 else SumReals(s[..|s| - 1]) + s[|s| - 1]
  }

  /** 1.2 times the capped delays of attempts 1 to n. */
  function Horizon(c: Config, n: int): real {
    if n <= 0 then 0.0 else Horizon(c, n - 1) + 1.2 * Delay(c, n)
  }

  /** The copies of one job over its whole life, and the backoff scheduled before each retry. */
  ghost predicate RetryChain(c: Config, jobs: seq<Job>, delays: seq<real>) {
    && |jobs| == |delays| + 1
    && jobs[0].attempt == 0
    && forall i :: 0 <= i < |delays| ==> Rescheduled(c, jobs[i], jobs[i + 1], delays[i])
  }

  ghost predicate Rescheduled(c: Config, job: Job, next: Job, delay: real) {
    exists f: Failure, jitter: real ::
      && GoesToRetry(job, f, c.maxAttempts)
      && next == Again(job, f)
      && 0.8 <= jitter <= 1.2
      && delay == Backoff(c, next.attempt, jitter)
  }

  lemma RescheduledBound(c: Config, job: Job, next: Job, delay: real)
    requires c.retryBase >= 0.0 && c.retryMax >= 0.0
    requires Rescheduled(c, job, next, delay)
    ensures next.attempt == job.attempt + 1 < c.maxAttempts
    ensures delay <= 1.2 * Delay(c, next.attempt)
  {
    var f: Failure, jitter: real :|
      GoesToRetry(job, f, c.maxAttempts) && next == Again(job, f) && 0.8 <= jitter <= 1.2
      && delay == Backoff(c, next.attempt, jitter);
    DelayNonNegative(c, next.attempt);
  }

  lemma DelayNonNegative(c: Config, attempt: int)
    requires c.retryBase >= 0.0 && c.retryMax >= 0.0
    ensures Delay(c, attempt) >= 0.0
  {
    assert PowerOfTwo(attempt - 1) >= 0.0;
  }

  /** The delay law: the first delay is the base, each one doubles, and the cap holds throughout. */
  lemma DelayDoubles(c: Config, attempt: int)
    requires c.retryBase >= 0.0 && c.retryMax >= 0.0 && attempt >= 1
    ensures Delay(c, 1) == if c.retryBase < c.retryMax then c.retryBase else c.retryMax
    ensures var d := 2.0 * Delay(c, attempt);
            Delay(c, attempt + 1) == if d < c.retryMax then d else c.retryMax
  {
    assert Pow2(attempt) == 2 * Pow2(attempt - 1);
    var p := Pow2(attempt - 1) as real;
    assert c.retryBase * (2.0 * p) == 2.0 * (c.retryBase * p);
    assert Pow2(0) == 1;
    if c.retryBase * p >= c.retryMax { assert 2.0 * (c.retryBase * p) >= c.retryMax; }
  }

  /** However a job fails, it is rescheduled fewer than maxAttempts times and all its backoffs
      together stay within the horizon. */
  lemma {:induction false} RetryHorizon(c: Config, jobs: seq<Job>, delays: seq<real>)
    requires c.retryBase >= 0.0 && c.retryMax >= 0.0
    requires RetryChain(c, jobs, delays)
    ensures delays == [] || |delays| < c.maxAttempts
    ensures jobs[|delays|].attempt == |delays|
    ensures SumReals(delays) <= Horizon(c, |delays|) <= Horizon(c, c.maxAttempts - 1)
    decreases |delays|
  {
    var n := |delays|;
    if n > 0 {
      var i := n - 1;
      RescheduledBound(c, jobs[i], jobs[n], delays[i]);
      assert RetryChain(c, jobs[..n], delays[..i]);
      RetryHorizon(c, jobs[..n], delays[..i]);
    }
    if n < c.maxAttempts { HorizonMonotone(c, n, c.maxAttempts - 1); }
  }

  lemma {:induction false} HorizonMonotone(c: Config, m: nat, n: nat)
    requires c.retryBase >= 0.0 && c.retryMax >= 0.0 && m <= n
    ensures Horizon(c, m) <= Horizon(c, n)
    decreases n
  {
    if m < n {
      DelayNonNegative(c, n);
      HorizonMonotone(c, m, n - 1);
    }
  }

  /** With the default settings: 304.8 seconds. */
  lemma DefaultHorizon()
    ensures Horizon(DEFAULTS, DEFAULTS.maxAttempts - 1) == 304.8
  {
    assert Pow2(1) == 2 && Pow2(2) == 4 && Pow2(3) == 8 && Pow2(4) == 16 && Pow2(5) == 32 && Pow2(6) == 64;
    assert Horizon(DEFAULTS, 2) == 7.2;
    assert Horizon(DEFAULTS, 4) == 36.0;
    assert Horizon(DEFAULTS, 6) == 151.2;
  }
}
