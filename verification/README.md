# Settlement payouts and migrations: a verified model

The settlement service pays merchants through a bank. Its API turns a settlement into a payout and
pushes a job on a Redis list; workers take jobs, claim the payout in Postgres under a stable
idempotency key, call the bank, mark the payout paid and acknowledge the job. Delivery is at least
once; the effect has to be once. The same repository carries a forward-only migration runner and the
expand migrations that renamed `payouts.status` to `payouts.state` while two versions of the
application write to the table.

This project models both in Dafny and proves what they promise. The files build on each other as
follows.

**The payout protocol.** `Bank`, `Tables`, `Queues` and `Delivery` hold the stores and one function
per atomic step: a SQL transaction, a Redis command or script, a bank request. The classes
`BankMock`, `Postgres` and `RedisServer` keep the same state in fields, and every method is proved
against its function. `Protocol` is the state machine: any thread of the API, any worker thread, the
network, a lease that ends and a recovery may take the next step, and a crash may take threads away,
at any time. The lease check of a recovery and its moves are separate steps, so a recovery may take
jobs from a worker that is still running; a bank request may be delivered late, repeatedly or never,
and its answer may be lost; every remote call may fail before or after it took effect. `Invariants`
and `Preservation` prove one invariant over all interleavings. On it rest `Safety` (no double
payment, nothing owed is lost, agreement of the records), `Refinement` (the service is a machine of
debts that are each paid once), `Money` (conservation), `Progress` (a measure that every worker step
lowers) and `Shutdown` (where the jobs of a worker went). `Outcome` says what one
delivery does, step by step and again as a law in terms of what its calls answer, and `Recovery` the same
of a recovery. `Service` holds the code of the API and of the worker as methods of the classes `Api` and
`Worker`, `Conformance` shows that running them is a run of the state machine, and `Payments` that a
delivery left alone pays. `Pool` is the interleaving of a worker's fetching and finishing threads.

**The migration runner.** `Splitter` holds the hand-written SQL splitter as a loop, proved equal to a
lexer followed by a grouping. `Lexing` pins the lexer down without its code, `SplitLaws` holds the laws
of splitting, and `RoundTrips` and `Comments`
say exactly when splitting and joining undo each other and what taking comments out does. `Runner` models
files, runs, failures and the two ways of applying a file; its main theorem is that failed and crashed
runs followed by a successful one leave what one clean run leaves. `MigrationFiles` and `Migrate` hold
the runner's own code, the class `Migrator`, with what becomes of each command as a parameter.
`Runners` lets any number of runners interleave under the advisory lock.

**The expand migrations.** `ColumnSync` models the trigger, the writers of both versions, the backfill
loop and the validated check. `Migrations` models the statements of 0008 to 0011, what each leaves
when it does not finish, and proves that the two no-transaction files can be restarted. `Rollout` lets
single statements, index builds and batches interleave with the writes of a running application.

Three findings about the code.

- Exit code 0 of the runner does not always mean that nothing is pending: it does exactly if `attempts`
  is positive or nothing was pending before (`Migrate.Migrator.Run`). With `attempts` of zero or less the
  runner reports success with files pending (`Migrate.ZeroAttempts`); its command line always asks for
  five.
- The backfill skips locked rows, and 0010 is recorded even if rows are left NULL
  (`Rollout.RecordedWithNulls`). Then every later run fails at 0011, until the application itself has
  written those rows (`Rollout.OnlyWritesUnblock`, `Rollout.CodeIffFilled`).
- Removing a comment also removes its newline, which can open a dollar-quoted body that was not there, so
  splitting, joining and splitting again is not stable on every text with comments
  (`SplitLaws.CommentsCanBreakRoundTrip`). `RoundTrips.RoundTripIff` and `Comments.RoundTripIffStretches`
  give the exact condition for every text; a failure needs a lone dollar sign before a comment
  (`Comments.HarmlessComments`), and comments in a file's header, the only ones that 0008 to 0011 have,
  do no harm (`RoundTrips.HeaderRoundTrip`).

The backoffs of one job come to at most 304.8 seconds with the default settings
(`Delivery.DefaultHorizon`); docs/DECISIONS.md line 181 allows about 15 minutes for the whole retry
horizon.

## Model

| member | source | states |
|---|---|---|
| Safety.AtMostOncePerReference | app/settle/worker.py:41-86 | In every reachable state of every interleaving, no reference has two ledger entries, and every entry pays what some payout owes. |
| Safety.ReconcileFindsNothing | app/bankmock/main.py:63-68 | The bank's duplicate report, asked in any reachable state, is empty. |
| Safety.PaidMeansOneEntry | app/settle/worker.py:59-86 | A paid payout has exactly one ledger entry, for its merchant, amount and currency, and the row's bank_ref is that entry's, however many deliveries ran. |
| Payments.DeliveryPays | app/settle/worker.py:67-86 | In every reachable state, a delivery of an unpaid payout whose calls all work and are answered leaves it paid, with exactly one ledger entry, one copy of the text off the worker's list and nothing put aside. |
| Payments.ProcessPays | app/settle/worker.py:127-139 | The same of the code of process, in stores as they are in any reachable state. |
| Safety.NoOwedPayoutIsLost | app/settle/worker.py:107-183 | An unpaid payout is named by no job in any list or the retry set exactly when its first push never happened, and then nobody has touched it or paid it. |
| Safety.AtRest | app/settle/worker.py:107-183 | When JOBS and RETRY are empty, every payout ever pushed is paid, or a dead letter or a text in some worker's list names it. |
| Safety.PushedIsHistory | app/settle/api.py:190 | The history these two speak of is true: on every run it gains exactly the payouts whose first push took place. |
| Safety.ExecutedHasOnePayout | app/settle/api.py:163-180 | A settlement is executing exactly when it has a payout, and it never has two. |
| Safety.OneSettlementPerDay | migrations/0007_settlements_payouts.sql:13-22 | In every reachable state no merchant has two settlements for one day. |
| Safety.InLedgerIffAccepted | app/bankmock/main.py:40-53 | A payout is in the ledger if and only if the bank has accepted its key, and the entry kept under the key is its entry. |
| Safety.AckOnlyWhenPaid | app/settle/worker.py:136-138 | A job is acknowledged only when its payout is paid. |
| Safety.DebtsCarriedUnchanged | app/settle/worker.py:110-123 | Every text in Redis and every running delivery carries the merchant, amount and currency of its settlement; attempts stay below the limit outside DEAD. |
| Safety.PermanentErrorUnreachable | app/settle/worker.py:67-74 | A claim that finds no row to claim always reads paid, so no delivery of a job of the service gives up with PermanentError. |
| Safety.RowsOnlyMoveForward | app/settle/worker.py:46-63 | Over any run a payout goes queued, sending, paid and never back; key and bank_ref are written once; what is owed does not change. |
| Safety.PaidOnlyFromSending | app/settle/worker.py:41-64 | On every run, a payout that was queued or not there yet is sending before it is paid. |
| Safety.SameRequestForSamePayout | app/settle/worker.py:75-78 | Two deliveries of one payout that are calling the bank at the same time send one and the same request. |
| Safety.PaidIsNotSentAgain | app/settle/worker.py:67-74 | Once a payout is paid, no delivery of it that has not claimed it yet, fetched already or later, ever gets to the bank call on any run. |
| Preservation.StepKeeps | app/settle/worker.py:127-183 | Every step by anyone keeps the whole invariant, and the stores only grow. |
| Preservation.RunKeeps | app/settle/worker.py:127-183 | So does every run. |
| Preservation.ClaimTxKeeps | app/settle/worker.py:41-56 | A claim, whatever key it proposes, keeps keys unique and written once, answers the key on the row, and fails only on paid rows. |
| Tables.ClaimLaw | app/settle/worker.py:45-56 | A queued or sending payout whose key, its own or else the proposed one, no other row has is claimed under it and is then sending; otherwise the answer says why and nothing changes. |
| Preservation.PostKeeps | app/bankmock/main.py:36-54 | A delivery of a request on the wire, first or repeated, keeps one entry per reference and answers the entry kept under its key. |
| Preservation.FailChange | app/settle/worker.py:110-124 | The retry or dead-letter transaction leaves the job's next copy, which names its payout, in RETRY or DEAD, also where an equal copy is merged or the list no longer holds the text, and takes away nothing else that is owed. |
| Refinement.StepRefines | app/settle/api.py:161-191 | Every step is a move of the machine of debts or invisible to it; the paying move is the ledger append and nothing else is. |
| Refinement.RunRefines | app/settle/worker.py:41-86 | Every run of the service is a history of the machine of debts and ends in the same debts. |
| Refinement.ServiceRefines | app/settle/api.py:161-191 | The same from the empty service. |
| Refinement.HistoriesAreSound | app/settle/worker.py:41-86 | In every history each settlement is owed once, each debt paid at most once, and no debt forgotten or altered. |
| Money.Conservation | app/bankmock/main.py:43-53 | The ledger total equals the sum of the paid payouts and of the sending ones whose key the bank accepted, and is at most the sum of the executed settlements. |
| Money.MovedWithinExecuted | app/settle/api.py:164-180 | Each payout whose money moved takes its amount from an executed settlement of its own, so together they take no more than was executed. |
| Progress.WorkDrops | app/settle/worker.py:127-156 | Every worker step and every promotion lowers a measure over jobs, retries and running deliveries; only a first push, foreign text or a recovery raises it; nothing else changes it. |
| Progress.WorkIsBounded | app/settle/worker.py:110-125 | A run without new work takes at most as many worker steps as the measure at its start. |
| Shutdown.CleanShutdown | app/settle/worker.py:266-275 | A worker's list is empty exactly when every text it fetched was acknowledged, put in RETRY or DEAD, or taken back, copy by copy; and what was acknowledged is paid. |
| Shutdown.RunAccount | app/settle/worker.py:107-138 | Over any run, what a list holds plus what left it equals what it held plus what was fetched, as multisets. |
| Shutdown.DepartedIsKept | app/settle/worker.py:110-124 | A text put aside is in RETRY or DEAD as its next copy, a text taken back is in JOBS. |
| Pool.InflightIsExact | app/settle/worker.py:241-260 | In every interleaving of the fetching thread and the finishing threads, inflight is the number of accepted unfinished texts and never exceeds the limit, and every fetched text is in exactly one place: in hand, accepted or finished. |
| Pool.RoomIsUsed | app/settle/worker.py:243-259 | With room the fetching thread takes the next text, counts it and hands it over. |
| Delivery.RetryHorizon | app/settle/worker.py:89-116 | A job is rescheduled fewer times than the attempt limit, and its backoffs together stay within 1.2 times the sum of the capped delays. |
| Delivery.DefaultHorizon | app/settle/config.py:32-34 | With the default settings that is 304.8 seconds. |
| Delivery.DelayDoubles | app/settle/worker.py:90 | The first delay is the base, each next one twice the one before, under the cap throughout. |
| Payments.WaitsWithinHorizon | app/settle/worker.py:115-116 | The waiting times that deliveries of one job write into RETRY over its whole life stay within the horizon. |
| Delivery.ReferenceReads | app/settle/worker.py:77 | The reference is "payout-" and the payout's id in decimal digits. |
| Bank.PostIsIdempotentPerKey | app/bankmock/main.py:36-54 | A request repeated with its key, after any other requests, answers the first entry and changes nothing, whatever its body; the ledger only grows. |
| Bank.CountsAtMostOneIffDistinct | app/bankmock/main.py:63-68 | No reference counts twice if and only if no two entries share one. |
| Bank.BankMock.CreatePayout | app/bankmock/main.py:35-54 | The method updates ledger and key map as the atomic step says: at most the entry for its body is appended, a replay changes nothing and a kept key stays; an injected failure touches nothing. |
| Bank.BankMock.Duplicates | app/bankmock/main.py:63-68 | The report holds exactly the references counted more than once, with their counts, and is empty if and only if references are distinct. |
| Tables.Postgres.CreateSettlement | app/settle/api.py:149-158 | A settlement is inserted as pending if the CHECK and UNIQUE constraints of its table allow it; all other rows stay as they are. |
| Tables.Postgres.ExecuteSettlement | app/settle/api.py:163-180 | A pending settlement starts executing and gains its payout, without key or bank_ref, in one transaction, any other is refused unchanged; no other row changes. |
| Tables.Postgres.Claim | app/settle/worker.py:41-56 | A claim answers the key on the row, which it writes once, and leaves the row sending with a key no other row has, or changes nothing; no other row changes. |
| Tables.Postgres.MarkPaid | app/settle/worker.py:59-64 | Only a sending row becomes paid; its key and all other rows stay. |
| Queues.RedisServer.PromoteDue | app/settle/worker.py:26-33 | Promotion moves exactly the at most 100 lowest-scored due members, in score order, to the right end of JOBS, and nothing else. |
| Queues.RedisServer.ZRangeByScore | app/settle/worker.py:27 | The members selected are due, distinct, lowest first, and no due one is left out unless the limit is reached. |
| Service.Api.ExecuteSettlement | app/settle/api.py:161-191 | Refused without effect unless pending; else committed first and pushed afterwards, with the push failing in any way. |
| Service.Worker.Handle | app/settle/worker.py:67-86 | Claim, bank call and mark leave row and ledger as what they answer says: sending from the claim on, one entry for the job's debt if the request arrived under a new key, paid with its reference if the mark took effect. |
| Service.Worker.Process | app/settle/worker.py:127-156 | A delivery is acknowledged, tried again or given up as its calls say: only a 4xx answer other than 429, or a payout in no state to be sent, is given up at once; any other failure puts the next copy into RETRY with its due time while attempts are left, else into DEAD; one copy of the text leaves the worker's list. |
| Service.Worker.RecoverDeadWorkers | app/settle/worker.py:168-180 | Exactly those of the scanned workers that are not this one and hold no lease have lost their lists; all their texts, and no others, have moved behind the old JOBS, each list reversed, and were counted; every other list is as it was. |
| Service.Worker.Run | app/settle/worker.py:229-260 | The main loop takes jobs from the right in order; the counter, the stop flag, the outage delay and the number of jobs taken are exactly those of its ticks, the counter within the limit and the delay between 0.5 and 30 seconds. |
| Service.TakesEveryText | app/settle/worker.py:241-259 | With Redis up, no stop signal and room at every tick, the loop takes a job per tick until JOBS is empty. |
| Service.StopEndsFetching | app/settle/worker.py:241 | What comes after a stop signal makes no difference to the loop. |
| Service.OutageDoublesDelay | app/settle/worker.py:246-253 | During an outage the loop takes nothing and its delay doubles each time, up to 30 seconds. |
| Service.RoomDecides | app/settle/worker.py:243-248 | Without room the loop takes nothing; with room an answer of Redis puts the delay back to half a second. |
| Service.CounterAdds | app/settle/worker.py:256-258 | The counter rises by the texts taken and falls by those that finish. |
| Service.FirstInFirstOut | app/settle/worker.py:247 | Jobs are fetched in the order they were pushed, behind those that were waiting. |
| Service.PromotedGoFirst | app/settle/worker.py:26-33 | Promoted retries are fetched before the waiting jobs, the one due last first. |
| Service.Worker.Drain | app/settle/worker.py:266-275 | The shutdown ends idle exactly if enough tasks finish in time, else out of time with the unfinished ones counted; then it gives up the lease and reports what is left in the list. |
| Conformance.ExecuteIsARun | app/settle/api.py:161-191 | The API call is a run of the state machine. |
| Conformance.ProcessIsARun | app/settle/worker.py:127-156 | A whole delivery is a run of the state machine, however each of its calls ends. |
| Conformance.RecoveryIsARun | app/settle/worker.py:168-180 | A whole recovery is a run of lease checks and single moves. |
| Splitter.SplitStatements | app/settle/migrate.py:47-88 | The loop ends on every text and answers the statements of the specification: lex, then group. |
| Splitter.TokensAreLossless | app/settle/migrate.py:51-84 | Every character is in exactly one token, in order. |
| Lexing.TokensAreTheOnlyLexing | app/settle/migrate.py:54-77 | The tokens of a text are the only pieces that make it up in order and are each of the kind that begins there and of its shape: a comment ends at its first newline, a quoted text at its second quote, a dollar body at the next copy of its tag, and only the last piece may lack its end. |
| Lexing.KindIs | app/settle/migrate.py:54-77 | What begins at a place, in characters: two dashes, a quote, a tag of letters and underscores between dollar signs, a semicolon, or none of these. |
| SplitLaws.StatementsAreSegments | app/settle/migrate.py:77-88 | The statements are the trimmed, non-blank stretches between semicolon tokens without their comments, in order; with the semicolons, the stretches are the whole text. |
| SplitLaws.StatementsAreTrimmed | app/settle/migrate.py:78-87 | No statement is empty or begins or ends with a space. |
| SplitLaws.StripIs | app/settle/migrate.py:78-85 | Trimming takes away spaces at both ends, all of them and nothing else. |
| SplitLaws.StatementLaw | app/settle/migrate.py:47-88 | For every text without comments, each statement that a semicolon ends, also the last, is split off again in front of any text: split(st + ";" + rest) is st and then split(rest). |
| SplitLaws.SplitLawIffWhole | app/settle/migrate.py:63-76 | A trimmed text of one statement is split off in front of every text if and only if all its quotes and dollar bodies are terminated. |
| SplitLaws.RoundTrip | app/settle/migrate.py:47-88 | For every text without comments, joining the statements with semicolons and splitting again gives the same statements. |
| SplitLaws.CommentsCanBreakRoundTrip | app/settle/migrate.py:59-62 | A family of texts with one comment on which the round trip fails. |
| RoundTrips.RoundTripIff | app/settle/migrate.py:47-88 | For every text, with or without comments, joining the statements and splitting again gives the same statements if and only if all of them but the last have their quotes and dollar bodies terminated and the last holds no comment and no free semicolon. |
| Comments.RoundTripIffStretches | app/settle/migrate.py:59-88 | The same condition on the text's tokens: on its stretches between free semicolons with the comments taken out. |
| Comments.LexingSurvivesIff | app/settle/migrate.py:59-76 | Taking the comments out leaves every other token as it is if and only if no lone dollar sign begins a tag in what remains. |
| Comments.HarmlessComments | app/settle/migrate.py:59-88 | Then the text splits like the text without its comments and makes the round trip. |
| RoundTrips.HeaderRoundTrip | app/settle/migrate.py:59-62 | A text whose comments are all in its header splits like the text behind the header and makes the round trip. |
| Runner.Resume | app/settle/migrate.py:111-185 | After any failed and crashed runs, a run that ends with nothing pending leaves what one clean run would have left at the start, if versions are distinct and every no-transaction file is restartable. |
| Runner.ExecInOrder | app/settle/migrate.py:115-131 | Statements are executed one after the other, in order, until one fails. |
| Runner.PendingInOrder | app/settle/migrate.py:91-97 | The to-do list holds exactly the files whose version is not recorded, in their order. |
| Runner.RestartableIsExact | app/settle/migrate.py:114-122 | A file can be resumed from every state a failure leaves if and only if it is restartable. |
| Runner.SameVersionIsSkipped | app/settle/migrate.py:91-97 | Of several files with one version, once the version is recorded none is in any later to-do list, whatever steps follow, though all were in the list before. |
| Runner.ResumeWithEqualVersions | app/settle/migrate.py:91-97 | With any versions, runs that die behind each file lead to what one clean run of the first file of each version leaves, so to what one clean run of all files leaves exactly if the later files of a version make no difference to it. |
| Runner.SecondIsNeverApplied | app/settle/migrate.py:91-97 | After a crash behind the first of two files of one version nothing is pending, and resuming worked exactly if the second changes nothing behind the first. |
| MigrationFiles.AppliedIff | app/settle/migrate.py:111-133 | An application succeeds if and only if every command is answered well and the file's statements can be executed. |
| MigrationFiles.HitIsReported | app/settle/migrate.py:172-180 | If everything before a command went well and it answers an error, the application fails with that error's code. |
| MigrationFiles.TimesOutIff | app/settle/migrate.py:174 | An application answers a lock timeout exactly if it runs into one. |
| MigrationFiles.BracketIff | app/settle/migrate.py:127 | BEGIN and COMMIT are left out of a transactional file in whatever case they are written. |
| MigrationFiles.VersionIs | app/settle/migrate.py:97 | The version of a file named NNNN_rest is NNNN. |
| Migrate.Migrator.ApplyFile | app/settle/migrate.py:111-133 | It ends as the first command that is not answered well does, or applied if there is none; applied, it did all the file does and recorded the version; with an error that was answered nothing is recorded, and a transactional file has changed nothing. |
| Migrate.Migrator.ApplyWithRetry | app/settle/migrate.py:166-180 | Only attempts that run into a lock timeout are followed by another, such an attempt is the last only if none is left, and at most `attempts` are made. |
| Migrate.OutlastedIsApplied | app/settle/migrate.py:166-180 | If the first attempts run into lock timeouts and a later one is answered well on a file that can be applied, that attempt applies and records it. |
| Migrate.SleptIs | app/settle/migrate.py:176-178 | The sleeps of n tries add up to 2^n - 2 seconds. |
| Migrate.Migrator.Run | app/settle/migrate.py:150-185 | A run tries the files of its to-do list one after the other, each on what the one before left, and stops at the first whose attempts a failure used up, with that failure's code, or when it never gets the lock. Code 0 means nothing is pending exactly if attempts were asked for or nothing was before. Undisturbed, it applies everything a clean run can. With distinct versions and restartable files it never changes what a clean run would leave. |
| Migrate.ZeroAttempts | app/settle/migrate.py:166-183 | With no attempts a run that gets the lock answers code 0 with the file still pending. |
| Runners.ExactlyOnceInOrder | app/settle/migrate.py:158-185 | With any number of interleaved runners, the applied versions are always those of a prefix of the files, and the transactional files committed are those the prefix gained, in order and each once. |
| Runners.OneAtWork | app/settle/migrate.py:158-185 | No two runners are past the lock at the same time. |
| Runners.LoneRunnerFinishes | app/settle/migrate.py:150-185 | With the lock free, a runner that is left alone applies everything a clean run can and gives the lock back. |
| Runners.ResumeInterleaved | app/settle/migrate.py:91-97 | The resume theorem for interleaved runners. |
| Migrations.Restartable0009 | migrations/0009_index_payout_state.sql:7-13 | 0009 can be started again after any executed prefix, whole statements and failed builds. |
| Migrations.Restartable0010 | migrations/0010_backfill_payout_state.sql:9-29 | 0010 can be started again after any committed batches. |
| Migrations.ExpandResumes | migrations/0011_validate_payout_state.sql:7-18 | However many runs of 0008 to 0011 failed on the way, in the end both indexes and the check are valid and both columns agree on every row. |
| Rollout.RecordedMeansDone | app/settle/migrate.py:100-122 | Whenever 0009 is recorded both concurrent indexes are valid and no key is repeated, and whenever 0011 is recorded both columns agree on every row, with writes of both versions between any two statements, during index builds and between batches, and runs that fail or die anywhere. |
| Rollout.CodeIffFilled | migrations/0011_validate_payout_state.sql:7-18 | With 0008 to 0010 recorded, after any such history, a run can do all that is pending if and only if no state is NULL, and then leaves the check valid. |
| Rollout.RecordedWithNulls | migrations/0010_backfill_payout_state.sql:15-26 | With every NULL row locked by others, 0010 runs through and is recorded with all of them still NULL. |
| Rollout.OnlyWritesUnblock | migrations/0010_backfill_payout_state.sql:9-21 | From then on, however often runs try, the same states stay NULL and 0011 is not recorded, until the application writes those rows. |
| Rollout.FinishesIff | app/settle/migrate.py:150-185 | With unique keys and behind 0008, a runner that is left alone can get to both indexes valid, every state filled and the check valid if and only if 0010 is not recorded over NULL states. |
| Migrations.WithoutTheDrop | app/settle/migrate.py:100-108 | Without the drop of invalid indexes 0009 would be recorded with an invalid index. |
| Migrations.TornCovers | app/settle/migrate.py:100-118 | Statements that do not complete may leave nothing, all of it, an invalid index, or any committed batches. |
| ColumnSync.PayoutsSyncState | migrations/0008_expand_payout_state.sql:16-37 | The trigger leaves the value written to either column in both, on inserts and updates, and an update of neither as it is. |
| ColumnSync.WriteTakesEffect | migrations/0008_expand_payout_state.sql:16-37 | Every insert on a free id and every update of a row leaves the value written in both columns, or a NULL state NULL when it brings nothing new; the only refusals are ids that do not fit and, under the check, a write that leaves a NULL state NULL. |
| ColumnSync.OneRegister | migrations/0008_expand_payout_state.sql:16-37 | For every interleaving of writers of both versions with the backfill and the check, status reads the last value written through either column, as the events alone say it, and so does state where it is not NULL. |
| ColumnSync.NullsNeverRise | migrations/0008_expand_payout_state.sql:16-37 | No row ever becomes NULL in state. |
| ColumnSync.EachRowFilledOnce | migrations/0010_backfill_payout_state.sql:16-21 | All batches together fill no more rows than were NULL at the start, whatever else is written. |
| ColumnSync.FillTakesEffect | migrations/0010_backfill_payout_state.sql:16-21 | A batch writes each of its rows' status into its state and touches nothing else. |
| ColumnSync.ValidatedForEver | migrations/0011_validate_payout_state.sql:10-18 | Once the check is validated, both columns agree on every row in every later state. |
| ColumnSync.ValidateIffComplete | migrations/0011_validate_payout_state.sql:18 | Validation succeeds exactly when both columns agree on every row. |
| ColumnSync.Payouts.Backfill | migrations/0010_backfill_payout_state.sql:12-29 | The loop ends; it leaves NULL at most rows locked against its last batch; without locks it leaves none after at most ceil(N/5000) + 1 batches, and exactly that many without other writers. |
| ColumnSync.Payouts.AddAndValidate | migrations/0011_validate_payout_state.sql:10-18 | Adds the check unless it is there and validates it, or changes nothing when a state is NULL. |

## Left out

- HTTP, the FastAPI, SQLAlchemy, psycopg and Redis clients, metrics, logging, signals, health checks and clocks: each command, transaction and script is one atomic step, time is a number, and identifiers, uuids and jitter are parameters.
- Expiry of keys at the bank, payout calls without a key, and workers of v1.7: the bank keeps keys for ever and every payout call comes from a worker's `handle`.
- Integer widths: ids and amounts are unbounded.
- The merchants table and its foreign keys: an amount is owed to a merchant id.
- Texts on the lists: a job's JSON text is identified with the job, and a text that does not decode is kept as it is; a text that decodes to something other than a job of the service is not modelled.
- Queues.IsDueBatch: members of equal score may come in any order, where Redis orders them by their bytes.
- Service.Worker.Run: a fetch whose reply is lost is not in this loop; the state machine has it, as a fetch whose thread is lost.
- Service.Worker.RecoverDeadWorkers: runs between the other steps without interruption; the state machine has the interleaved form.
- Progress.WorkDrops: does not say that work is ever done, since workers may stop; recovery depends on another worker being there, as a worker never recovers its own list.
- Job counts are not conserved (equal members of the retry set merge, and a job taken from a live worker can fork), a dead letter may be of a paid payout, and a payout whose push fails stays without a job: none of these is claimed to be otherwise.
- Rows written before 0008 with other states than queued, sending and paid are not in the payout protocol; `ColumnSync` allows any text in both columns.
- SQL lexing beyond the splitter: double-quoted identifiers, block comments and backslash escapes are not recognised there either.
- MigrationFiles.Upper: only the letters that upper-case to those of BEGIN and COMMIT are mapped, which is all the runner compares with.
- Migrate.Migrator: the statements' meaning is a parameter; what the text of 0008 to 0011 means is stated in `Migrations` on commands, not on SQL text. The creation of the version table is not modelled.
- Migrations.Execute: the backfill is the one without competing row locks, so that its effect is determined, and an index build is one step; `Rollout` and `ColumnSync.Payouts.Backfill` have the locks, the other writers and builds that take time. 0008 only sets the columns and the trigger up.
- Rollout: begins behind 0008; one runner at a time, as `Runners` proves; a build or batch that the server finishes after its runner stopped is not modelled.
- Migrate.Migrator.Run: the first connection and its retries are not modelled, nor is the printing of the status.
- Runners: a runner's lock is released when its session ends; a commit that the server finishes after the runner died and lost the lock is not modelled.
- The contract migration 0012, the linters, the release scripts, Kubernetes and dashboards: configuration, or checks of a few lines.
