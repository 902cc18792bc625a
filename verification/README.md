# Verified model of the advertising operations backend

This project models the parts of the backend whose correctness depends on order, concurrency or
subtle case analysis, and proves what they guarantee. Each component has a specification module
(tables as values, one function or relation per operation, theorems over all runs) and, where the
original updates state in place or loops, a class or method proved to compute exactly that
specification.

`dafny verify dfyconfig.toml` checks everything.

## What is modelled

**Budget command ledger** (`BudgetLedger`, `BudgetRecovery`, `BudgetRuns`, `BudgetSafety`,
`BudgetExactness`, `BudgetStall`, `BudgetStore`, `BudgetWorkers`, `BudgetLostUnknown`, `BudgetLeases`,
`BudgetStories`). Four tables: commands, attempts,
target locks, target quarantines. Each store method is one transaction, so one atomic step. A run is
any sequence of calls with any arguments, clock readings and tokens. `BudgetWorkers` puts the order of
the confirm and reconcile routes on top: any number of workers, each of which may stall or crash
between any two steps.

The claim of a queued command does not look at the lock row, so two layers of results are kept apart.
The write fence (at most one renewed and unsettled command per target, and it owns the lock row) needs
no assumption. Exactness of the quarantine table holds in runs whose claims are made while the lock row
still names the claimed command; `BudgetStall` gives a concrete run that shows what happens otherwise,
and `ClaimKeepsOneFlightIff` and `RecoverKeepsExactIff` give the exact conditions for one claim and one
offline recovery. With the routes' order (an unknown outcome is reported only after the renewal) the
assumption on claims is not needed at all (`NoWriteOverUnknown`), and exactness over a whole execution
is equivalent to a condition on the offline recoveries alone (`AlwaysExactIff`).

`BudgetLeases` and `BudgetStories` say what the calls and their answers alone determine: who holds a
target and until when, and everything the ledger records about a command.

**Placeholder translator** (`SqlTranslator`, `SqlTexts`, `SqlPieces`). The six-mode scanner as a lexer;
scanning the output simulates scanning the input. The loop is proved to write exactly that translation.
`SqlTexts` and `SqlPieces` describe the translation of any statement by its text, without the scanner.

**Sync engine** (`SyncWindows`, `SyncBackoff`, `SyncEngine`, `SyncLeases`, `SyncDue`). Date windows,
retry back-off, the account loop, both lease stores, and the scheduler's choice.

**Identity migration** (`IdentityMigration`, `IdentityOutcome`, `IdentityMigrator`). Row transactions with
checkpoints, interruption and resumption, dry run against apply, when an apply succeeds and what it
leaves, manifest validation.

**Account ownership and conflicts** (`Texts`, `AccountTexts`, `Ownership`, `OwnershipStore`, `OwnershipWrites`,
`Conflicts`, `ConflictStore`). One active owner per provider identity across the client and account
stores, in the table-backed and the in-memory form; what the database triggers and the unique index
guarantee alone, when the checks of the services have been overtaken by other writes; and the
optimistic resolver of ambiguous assignments with its authorisation.

**Roles and grants** (`Roles`, `AuthStore`), **statistics ingest** (`StatsIngest`, `StatsStores`),
**OAuth connect options** (`OAuthOptions`).

## Where the code does not do what one might expect

- Two commands of one target can be in progress at once when a worker stalls between acquiring the lock
  and claiming (`StalledClaim`). The write fence holds all the same.
- A target has one quarantine row. When both workers of such a stall die, the offline recovery leaves an
  unknown command without a row, in whatever order it works (`RecoveryAfterStall`); after a
  reconciliation of the other command the routes pass the gate on a target whose outcome is unknown
  (`WriteOverUnknown`). This is the only way: `RecoverKeepsExactIff`, `AlwaysExactIff`.
- A mapping stored with a second `act_` inside its identifier changes identity when it is patched with
  its own stored value, and the service then makes no ownership check. In the table-backed store the
  update trigger still refuses an identity that another active client owns, and the unique index a row
  of the same texts, so that what is left is a second row of the same client
  (`NestedPrefixDoublesOwnAccount`). The in-memory store checks the client's own rows on every patch, so
  there the identity of another active client can be taken (`NestedPrefixTakesOthersAccount`).
  `PatchKeepsIff` gives the exact condition for each store.
- A replayed statistics request that spells an amount differently (1.0 for 1.00) is a conflict although
  it has the same effect (`RespelledDigestIff`, `RespelledSameEffect`).
- The in-memory statistics store keeps the rows before a bad one; the table-backed store keeps none
  (`RefusalLeavesNoTraceIff`).
- A gap in the sync windows opens exactly with a success whose window neither overlaps nor adjoins the
  covered span (`NoGapIff`): an explicit window past its end, as a sync at login can ask for, or a clock
  that goes back more than a day before it (`IncrementalTouchesIff`).
- A second exclusive run starts beside a holder exactly when it acquires at or after the holder's
  deadline (`ExclusiveIff`).

## Model

| member | source | states |
|---|---|---|
| BudgetRuns.StepKeeps | app/db.py:1215-1840 | every store call, refused or not, keeps the table invariant, counts claims, and keeps the fence |
| BudgetRuns.RunKeeps | app/db.py:1215-1840 | the invariant holds after any sequence of calls |
| BudgetSafety.WriteFence | app/db.py:1700-1748 | in every run two renewed commands in progress on one target are the same command, and it owns the lock row |
| BudgetSafety.OwnedRowIsStable | app/db.py:1586-1748 | whatever the next call, an owned lock row of a command in progress keeps owner and token unless the command is finished or recovered |
| BudgetSafety.FencedRowIsStable | app/db.py:1586-1748 | a fenced command owns its lock row in every run, and no call takes or deletes it before the command leaves in_progress |
| BudgetSafety.AtMostOnce | app/db.py:1237-1392 | one command per client and idempotency key and per preview, at most one claim of each, completion time exactly in the three final states |
| BudgetSafety.ReplayIsReadOnly | app/db.py:1237-1275 | submitting a used key changes no table and answers with the first command exactly when the request hash matches |
| BudgetStories.SubmittedIff | app/db.py:1237-1321 | a submission becomes a new command exactly when its key and preview are unused and its target is not quarantined, and the command keeps what was submitted |
| BudgetStories.AcceptedThenReplayed | app/db.py:1237-1275 | after an accepted submission, whatever happens since, the same one is answered with its command as a replay, the key with another request and the consumed preview with a conflict, and no table changes |
| BudgetLeases.HolderIsRow | app/db.py:1586-1748 | in every run the lock row tells exactly the holder that follows from the answered acquires and renewals, the own releases and the recoveries, until ten minutes after the last of them |
| BudgetLeases.AcquiredIff | app/db.py:1600-1660 | an acquire succeeds exactly when the target is free or past its holder's deadline, nothing on it is in progress, and it is not quarantined, except for the command that owns the quarantine |
| BudgetLeases.RenewedIff | app/db.py:1700-1748 | a renewal succeeds exactly for the holder, while its command is in progress and the target is not quarantined |
| BudgetLeases.LeaseKeepsOut | app/db.py:1600-1660 | after a successful acquire at n every acquire of the target before n + 600 fails, whatever is called in between, unless the holder released it or renewed it with an earlier clock, or a recovery ran |
| BudgetLeases.ReleasedIsFree | app/db.py:1675-1698 | once the holder has released a quiet target, any command of it may acquire it at once |
| BudgetStories.StoryIsRow | app/db.py:1215-1840 | in every run status, amount, trace, error, attempt count, times and attempts of a command are exactly what its accepted calls told, in order |
| BudgetStories.ShowsLastReport | app/db.py:1450-1584 | a reported command shows the last accepted report, and has its attempt; one without is queued, in progress or was recovered |
| BudgetStories.AcceptedIff | app/db.py:1367-1584 | a claim is accepted exactly for a queued command, a report exactly once while it is in progress, a reconciliation exactly while it is unknown, with a new attempt and an allowed status |
| BudgetStories.AnswerIsRow | app/db.py:1367-1584 | an accepted call answers with the row it wrote |
| BudgetSafety.TerminalStep | app/db.py:1367-1584 | no call changes the row of an applied, conflict or failed command |
| BudgetSafety.TerminalIsFinal | app/db.py:1367-1584 | the same over the rest of any run |
| BudgetExactness.QuarantineExactness | app/db.py:1036-1056 | under claims made with the own lock row: unknown exactly when owning the quarantine row, one command in progress per target, none on a quarantined target |
| BudgetExactness.ClaimKeepsOneFlightIff | app/db.py:1367-1392 | a claim keeps one command in progress per target and none quarantined exactly when the target is free and not quarantined at the claim |
| BudgetExactness.RecoverKeepsExactIff | app/db.py:1758-1840 | the recovery keeps exactness exactly when no target had two commands in progress and none in progress was quarantined |
| BudgetStall.StalledClaim | app/db.py:1367-1392 | a concrete run in which two commands of one target are in progress and only the lock owner can renew |
| BudgetStall.StalledClaimBreaksExactness | app/db.py:1036-1056 | at the store, which takes any reported outcome: if both then end unknown, one has no quarantine row and reconciling the other reopens the target |
| BudgetRecovery.RecoverCommand | app/db.py:1758-1840 | exactly the listed commands become unknown, each with one new attempt numbered above its earlier ones |
| BudgetRecovery.RecoverQuarantine | app/db.py:1036-1056 | every recovered target is quarantined; an existing row keeps its owner, a new one belongs to the first listed command |
| BudgetRecovery.RecoverAll | app/db.py:1758-1840 | nothing stays in progress, recovered targets are quarantined, their lock rows are gone, every other command is untouched |
| BudgetRecovery.RecoverTwice | app/db.py:1758-1840 | the count is the number of commands that were in progress, and a second recovery finds none |
| BudgetStore.SqliteProviderBudgetCommandStore.CreateOrReplay | app/db.py:1215-1321 | the new tables and the answer are those of the ledger step |
| BudgetStore.SqliteProviderBudgetCommandStore.ClaimQueued | app/db.py:1367-1392 | same, for the claim |
| BudgetStore.SqliteProviderBudgetCommandStore.FinishExecution | app/db.py:1450-1510 | same, with a failed attempt insert rolling everything back |
| BudgetStore.SqliteProviderBudgetCommandStore.RecordReconciliation | app/db.py:1512-1584 | same, for the reconciliation and its quarantine row |
| BudgetStore.SqliteProviderBudgetCommandStore.AcquireTargetLock | app/db.py:1586-1673 | same, for taking a free or expired row of an undisturbed target |
| BudgetStore.SqliteProviderBudgetCommandStore.RenewTargetLock | app/db.py:1700-1748 | same, for the renewal |
| BudgetStore.SqliteProviderBudgetCommandStore.ReleaseTargetLock | app/db.py:1675-1698 | same, for the release |
| BudgetStore.SqliteProviderBudgetCommandStore.SelectInProgress | app/db.py:1778-1786 | lists exactly the commands in progress, once each, in order of their update time |
| BudgetStore.SqliteProviderBudgetCommandStore.RecoverInterruptedInProgressOffline | app/db.py:1758-1840 | refuses without the operator's confirmation; otherwise recovers a full order of the commands in progress and returns their number |
| BudgetWorkers.ExecutionKeeps | app/main.py:6751-6860 | the invariant of workers and tables holds after any interleaving of route steps, stalls, crashes and recoveries |
| BudgetWorkers.OneWriterPerTarget | app/main.py:3723-3788 | two workers are never both between gate and finish on one target |
| BudgetWorkers.WrittenAtMostOnce | app/main.py:6751-6860 | at most one provider write is ever sent for a command |
| BudgetWorkers.ExecutionResolved | app/services/provider_budget_commands.py:1678-1889 | with the routes' order an unknown command owns its quarantine row and no fenced command is quarantined |
| BudgetWorkers.NoWriteOverUnknown | app/main.py:6751-7005 | under careful recoveries alone, stalled claims included: unknown exactly when owning the quarantine row, and no worker writes to a target with an unknown outcome |
| BudgetWorkers.AlwaysExactIff | app/db.py:1758-1840 | over any execution of the routes the quarantine table stays exact if and only if every offline recovery finds one command in progress per target and none on a quarantined target |
| BudgetLostUnknown.RecoveryAfterStall | app/db.py:1758-1840 | after the stalled run every order of recovery leaves an unknown command without its quarantine row |
| BudgetLostUnknown.WriteOverUnknown | app/main.py:6751-7005 | a concrete execution of the routes (stall, crash, recovery, reconciliation, new command) that ends past the gate on a target with an unknown command |
| SqlTranslator.LexCovers | app/runtime_db.py:252-332 | the lexemes spell the statement |
| SqlTranslator.SameAdvance | app/runtime_db.py:252-332 | one lexeme of the input is one lexeme of the output with the same next mode, or a replaced placeholder |
| SqlTranslator.Simulation | app/runtime_db.py:252-332 | lexing the output gives the lexemes of the input with each top-level placeholder read as two ordinary characters |
| SqlTranslator.ExpandFacts | app/runtime_db.py:252-332 | the replacement keeps all protected regions, leaves no placeholder, is idempotent, and lengthens by their number |
| SqlTranslator.TranslationIsExact | app/runtime_db.py:252-332 | all of that for the translated statement; translating twice is translating once |
| SqlTexts.PlainPrefix | app/runtime_db.py:305-331 | up to the first quote, comment or dollar tag every ? becomes %s and nothing else changes |
| SqlTexts.TagIsTaken | app/runtime_db.py:321-327 | a dollar tag is taken whole, whatever follows it |
| SqlTexts.QuoteCopies | app/runtime_db.py:289-303 | a quote with doubled marks and escaped characters is copied up to its closing mark, and the rest is translated by itself |
| SqlTexts.OpenQuoteCopies | app/runtime_db.py:289-303 | a quote that is never closed is copied to the end |
| SqlTexts.LineCopies | app/runtime_db.py:266-271 | a line comment is copied up to and with its line end |
| SqlTexts.BlockCopies | app/runtime_db.py:272-280 | a block comment is copied up to its first end |
| SqlTexts.DollarCopies | app/runtime_db.py:281-288 | a dollar body is copied up to the next occurrence of its tag |
| SqlPieces.PiecesTranslate | app/runtime_db.py:252-332 | a statement cut into plain text and regions is translated by replacing the placeholders of the plain text and copying the regions |
| SqlPieces.EveryStatementHasPieces | app/runtime_db.py:252-332 | every statement can be cut that way, so this is what the translation of any statement is |
| SqlPieces.QuotedValue | app/runtime_db.py:252-332 | a quoted value inside a plain statement is copied, what stands before and after it is translated |
| SqlTranslator.ProtectedTurn | app/runtime_db.py:266-303 | a loop turn inside a region appends and consumes exactly one lexeme and sets the variables to the next mode |
| SqlTranslator.TopLevelTurn | app/runtime_db.py:305-331 | the same at the top level |
| SqlTranslator.TranslateQmarkSql | app/runtime_db.py:252-332 | the loop ends and returns the translation |
| SyncWindows.ParseRow | app/services/ad_account_sync.py:358-415 | a provider row is accepted exactly when it is an object whose days agree and lie inside the window and whose metric fields are readable |
| SyncWindows.ParseDates | app/services/ad_account_sync.py:364-386 | the days of a row, unless one of its date fields is malformed |
| SyncWindows.ValidateRows | app/services/ad_account_sync.py:339-417 | accepts exactly when every row is accepted, with their days in order |
| SyncWindows.SpanIsCovered | app/services/ad_account_sync.py:542-573 | after a first completed back-fill the covered days are exactly one span, with explicit dates or without, as long as each success touches it |
| SyncWindows.NoGapIff | app/services/ad_account_sync.py:542-573 | no gap ever opens if and only if each success touches the span before it |
| SyncWindows.NoGapWindows | app/services/ad_account_sync.py:542-573 | runs without explicit dates on days that never go back always touch it |
| SyncWindows.NextSuccessIsGapFreeIff | app/services/ad_account_sync.py:542-573 | a success with any dates leaves no gap exactly when its window overlaps or adjoins the span |
| SyncWindows.IncrementalTouchesIff | app/services/ad_account_sync.py:542-573 | a run without an explicit first day does so exactly when its last day is at most one day before the span |
| SyncWindows.WindowReach | app/services/ad_account_sync.py:542-573 | the first day is the explicit one, or reaches back the whole look-back, or the overlap before the newest day, whichever of the four fields tells it, and never passes the last day |
| SyncWindows.BackfillIsCovered | app/services/ad_account_sync.py:566-570 | whatever sync completes the back-fill, each of the look-back's days up to its last day is covered |
| SyncWindows.OverlapIsCovered | app/services/ad_account_sync.py:551-566 | a later success asks again for the overlap up to the newest known day and for all days after it |
| SyncWindows.NewestDay | app/services/ad_account_sync.py:837-856 | the newest known day is the greatest day of the last success with rows, which also completes the back-fill unless its first day was explicit |
| SyncBackoff.AttemptCountsStreak | app/services/ad_account_sync.py:779-787 | an error job's attempt is one more than the retryable errors directly before it |
| SyncBackoff.BackoffSpacing | app/services/ad_account_sync.py:522-526 | k consecutive retryable failures span at least the stated minimum |
| SyncBackoff.BackoffIsTight | app/services/ad_account_sync.py:522-526 | for every k a history attains that minimum |
| SyncEngine.AdAccountSyncService.SyncAccount | app/services/ad_account_sync.py:640-872 | one account's skip, window with or without explicit dates, validation, storing, job row and metadata, and nothing else |
| SyncEngine.AdAccountSyncService.RunSync | app/services/ad_account_sync.py:606-878 | the loop over the accounts and the counters of its outcomes |
| SyncEngine.OthersUnchanged | app/services/ad_account_sync.py:606-878 | an account that is not listed does not change |
| SyncEngine.RunSyncIsPerAccount | app/services/ad_account_sync.py:606-878 | each listed account is synced once from its own earlier state, and the counters tally these outcomes |
| SyncEngine.RunsAreSyncs | app/services/ad_account_sync.py:772-856 | the engine's runs are syncs whose validated rows lie inside their windows |
| SyncEngine.EngineHasNoGapsIff | app/services/ad_account_sync.py:542-856 | for accounts driven by the engine, explicit dates, skips and failures included: no gap exactly when every success touches the span before it |
| SyncEngine.EngineHasNoGaps | app/services/ad_account_sync.py:542-856 | incremental runs on days that never go back open no gap |
| SyncEngine.EngineCoversLookback | app/services/ad_account_sync.py:542-573 | over any turns of the engine, the run that completes the back-fill covers the whole look-back |
| SyncEngine.FirstRunCoversLookback | app/services/ad_account_sync.py:542-573 | the first successful unattended run of a fresh account does |
| SyncEngine.JobTells | app/services/ad_account_sync.py:766-836 | each run that is not skipped writes one job, a success exactly when valid rows were stored, a planned retry exactly for a retryable error |
| SyncEngine.JobsAreSyncs | app/services/ad_account_sync.py:640-872 | over any turns the jobs and the syncs of an account are the same runs with the same successes |
| SyncEngine.TallyTells | app/services/ad_account_sync.py:858-864 | the counters are the numbers of skips, successes, failures and planned retries |
| SyncEngine.UnforcedRunIsSerial | app/services/ad_account_sync.py:648-661 | an unforced run keeps the job history within the back-off model |
| SyncEngine.UnforcedTurnsAreSerial | app/services/ad_account_sync.py:648-661 | any sequence of unforced runs of a fresh account writes such a history |
| SyncEngine.EngineBacksOff | app/services/ad_account_sync.py:522-526 | so its consecutive retryable failures are as far apart as the back-off demands |
| SyncLeases.SqliteLeaseStore.AcquireLease | app/services/ad_account_sync.py:146-175 | refines the abstract acquire, unreadable rows counting as expired |
| SyncLeases.SqliteLeaseStore.RenewLease | app/services/ad_account_sync.py:185-197 | refines the abstract renewal |
| SyncLeases.SqliteLeaseStore.ReleaseLease | app/services/ad_account_sync.py:177-183 | refines the abstract release |
| SyncLeases.InMemoryLeaseStore.AcquireLease | app/services/ad_account_sync.py:228-235 | refines the abstract acquire |
| SyncLeases.InMemoryLeaseStore.RenewLease | app/services/ad_account_sync.py:243-252 | refines the abstract renewal |
| SyncLeases.InMemoryLeaseStore.ReleaseLease | app/services/ad_account_sync.py:237-241 | refines the abstract release |
| SyncLeases.DisplacedForGood | app/services/ad_account_sync.py:177-252 | a displaced token never renews or releases anything again |
| SyncLeases.ExclusiveRuns | app/services/ad_account_sync.py:879-954 | if every holder renews or releases before its own deadline, every open run holds its lease up to that deadline and is the only one under its key |
| SyncLeases.LateIsJoined | app/services/ad_account_sync.py:146-175 | an acquire at or after the deadline of an open run starts a second one beside it |
| SyncLeases.ExclusiveIff | app/services/ad_account_sync.py:146-197 | no moment of a run has two open runs under a key if and only if no acquire comes at or after the deadline of one still open under it |
| SyncLeases.LeaseLasts | app/services/ad_account_sync.py:146-197 | a lease turns everybody away for the asked time, thirty seconds at least, and nobody after it or after its release |
| SyncLeases.RenewedLasts | app/services/ad_account_sync.py:185-197 | a renewal starts the time anew |
| SyncDue.Insert | app/services/ad_account_sync.py:1009-1009 | keeps the order of class, time and id, with the new entry added |
| SyncDue.SelectAllDue | app/services/ad_account_sync.py:993-1009 | the due accounts, exactly, in that order |
| SyncDue.SelectDue | app/services/ad_account_sync.py:987-1018 | the first clamped number of due accounts; none of them is skipped by a later unforced run, none has a non-retryable latest error |
| SyncDue.DueIff | app/services/ad_account_sync.py:993-1008 | due are exactly the accounts never synced, those whose retry may start, and those whose last success is old, ranked in this order of classes |
| SyncDue.BoundsAre | app/services/ad_account_sync.py:991-1011 | the batch size within 1 and 100, the stale time in whole hours of at least one |
| IdentityMigration.RowOnlyAdds | app/services/envidicy_migration.py:157-195 | a row transaction overwrites and removes nothing and keeps users and principals one to one |
| IdentityMigration.RunOnlyAdds | app/services/envidicy_migration.py:197-215 | the same for any run of any manifest |
| IdentityMigration.ResumeCatchesUp | app/services/envidicy_migration.py:157-215 | resuming after clean rows catches up with the uninterrupted run, row by row |
| IdentityMigration.CrashAndResume | app/services/envidicy_migration.py:157-215 | stopping after any number of rows and running again gives the same tables, the same failing row and applied counts that add up |
| IdentityMigration.ManyCrashes | app/services/envidicy_migration.py:157-215 | any number of interruptions, each at any row, end in the same tables |
| IdentityMigration.SameVerdict | app/services/envidicy_migration.py:157-195 | a row gets the same verdict in the apply's tables as in the dry run's |
| IdentityMigration.DryRunPredictsApply | app/services/envidicy_migration.py:50-215 | a dry run writes nothing and predicts the apply's failing row, applied and unchanged counts |
| IdentityOutcome.ApplySucceedsIff | app/services/envidicy_migration.py:157-215 | an apply succeeds exactly when the run belongs to the manifest, every user is active, no other binding is in the way and no checkpointed binding is missing |
| IdentityOutcome.AppliedIsBound | app/services/envidicy_migration.py:157-215 | afterwards every row is bound and checkpointed, and nothing else came in |
| IdentityOutcome.CountersTell | app/services/envidicy_migration.py:197-215 | the rows bound before are counted as unchanged, the others as checked or applied |
| IdentityOutcome.AuditTells | app/services/envidicy_migration.py:185-195 | the audit row names manifest, row and whether its binding is new |
| IdentityMigrator.ValidateRows | app/services/envidicy_migration.py:62-79 | accepts exactly well-formed rows without repeated users or principals |
| IdentityMigrator.ValidateManifest | app/services/envidicy_migration.py:50-80 | accepts exactly manifests with a good header and such rows |
| IdentityMigrator.Migrator.RowTransaction | app/services/envidicy_migration.py:157-195 | the row step on the tables, error cases included |
| IdentityMigrator.Migrator.Run | app/services/envidicy_migration.py:146-215 | the loop's tables, counters and next row, and a failed preflight that touches nothing |
| Ownership.NormalizeTwice | app/services/ad_accounts.py:20-22 | normalising a platform is idempotent |
| Ownership.CanonicalTwiceIff | app/services/ad_accounts.py:25-34 | canonicalising an identifier is idempotent except exactly for a second act_ inside a Meta identifier |
| AccountTexts.PlatformNames | app/services/ad_accounts.py:20-22 | meta and facebook in any case and padding are one platform, every other name is its own |
| AccountTexts.PaddingIsIgnored | app/services/ad_accounts.py:20-34 | white space around platform and identifier names no other account |
| AccountTexts.SameDigitsIff | app/services/ad_accounts.py:31-33 | for Google and TikTok two identifiers name one account exactly when they have the same digits in the same order |
| AccountTexts.SeparatorIsIgnored | app/services/ad_accounts.py:31-33 | putting in or leaving out a character that is no digit changes nothing |
| AccountTexts.DigitsMatter | app/services/ad_accounts.py:31-33 | another digit anywhere is another account |
| AccountTexts.PrefixIsIgnored | app/services/ad_accounts.py:29-30 | for Meta act_ in any case names the same account as without it |
| AccountTexts.OtherTextsIff | app/services/ad_accounts.py:28-34 | otherwise the stripped texts decide |
| AccountTexts.SameDigitsAreRefused | app/services/ad_accounts.py:207-228 | creating an active account another active client has active, in any spelling of the same digits, is an assignment conflict |
| AccountTexts.SameMetaIsRefused | app/services/ad_accounts.py:207-228 | the same for Meta, with or without act_, as meta or as facebook |
| AccountTexts.CreatedIff | app/services/ad_accounts.py:207-260 | a creation is stored exactly when the client exists, has no row of the account, and no other active client has it active |
| AccountTexts.ArchivedCanBeTaken | app/services/ad_accounts.py:358-367 | after its mapping or its client is archived, another client can take the account over |
| AccountTexts.PatchSets | app/services/ad_accounts.py:282-355 | a patch sets what it names, the identity in canonical form, and nothing else |
| AccountTexts.ChangedPatchIff | app/services/ad_accounts.py:282-355 | a patch with a changed value goes through exactly under the conditions of a creation |
| AccountTexts.ClientPatchIff | app/main.py:3853-3892 | a client patch sets the status unless it would restore a client with an account active elsewhere |
| Ownership.UncheckedIdentity | app/services/ad_accounts.py:291-305 | a patch that repeats the stored values moves the identity exactly when it names a doubly prefixed Meta identifier |
| Ownership.RowKeepsIff | app/services/ad_accounts.py:130-205 | storing a row keeps single ownership exactly when it collides with no row of its client and no active row of another active client |
| Ownership.PatchKeepsIff | app/services/ad_accounts.py:282-355 | in the table-backed store with its update trigger and unique index (app/db.py:58-145) a patch breaks single ownership exactly when it slips onto another row of the same client with a different text that no other active client owns; in the in-memory store exactly when it slips onto another active client's row |
| Ownership.ClientKeeps | app/main.py:3853-3892 | client patches with the restore guard, and archiving, keep single ownership |
| Ownership.StepKeepsIff | app/services/ad_accounts.py:207-367 | the same for every account and client step of either store |
| Ownership.OwnedMeansNoConflict | app/services/ad_accounts.py:59-84 | single ownership means that no active mapping is ambiguous |
| Ownership.SingleOwnership | app/services/ad_accounts.py:59-367 | over any sequence of account and client steps in which no slip lands, no active mapping is ever ambiguous |
| Ownership.NestedPrefixDoublesOwnAccount | app/services/ad_accounts.py:282-355 | a run of the table-backed store from empty tables that ends with one provider account active in two rows of one client |
| Ownership.NestedPrefixTakesOthersAccount | app/services/ad_accounts.py:504-540 | a run of the in-memory store that ends with one provider account active for two clients |
| OwnershipWrites.NeverTwoOwners | app/db.py:66-175 | whatever is written however stale the checks before it, the triggers and the index keep every provider account with one active client and every text once per client |
| OwnershipWrites.StepIsWrite | app/services/ad_accounts.py:207-367 | every step of the table-backed store is one such write or changes nothing |
| OwnershipWrites.SameLowerSameIdentity | app/db.py:105-112 | the lower-case comparison of the update trigger is enough to fix the identity |
| OwnershipStore.AccountBook.ActiveAssignment | app/services/ad_accounts.py:130-160 | finds another active client's active row of the identity exactly when there is one |
| OwnershipStore.AccountBook.UniqueIdentityAvailable | app/services/ad_accounts.py:162-188 | true exactly when the client has no other row of the identity |
| OwnershipStore.AccountBook.CreateAccount | app/services/ad_accounts.py:207-260 | the creation step with its three refusals |
| OwnershipStore.AccountBook.TriggerAborts | app/db.py:105-145 | true exactly when the update trigger fires |
| OwnershipStore.AccountBook.UniqueIndexViolated | app/db.py:59-60 | true exactly when another row of the client stores the same texts |
| OwnershipStore.AccountBook.PatchAccount | app/services/ad_accounts.py:282-355 | the patch step of either store with its checks and refusals, those of the database included |
| OwnershipStore.AccountBook.ArchiveAccount | app/services/ad_accounts.py:358-367 | the archive step |
| OwnershipStore.AccountBook.RestoreAvailable | app/main.py:3853-3892 | true exactly when no own active mapping is active for another active client |
| OwnershipStore.AccountBook.PatchClient | app/main.py:5628-5630 | the guarded client patch |
| OwnershipStore.AccountBook.ArchiveClient | app/services/clients.py:113-122 | the client archive step |
| OwnershipStore.AccountBook.ActiveAssignmentConflictIds | app/services/ad_accounts.py:59-84 | the grouping loop returns exactly the ambiguous mappings |
| Conflicts.SucceedsIff | app/services/assignment_conflicts.py:414-687 | a resolution goes through exactly when the group is still ambiguous, as expected and as seen, the winner is in it, the caller is an active administrator or manages the agency of every candidate's client, and no loser budget is active against the policy |
| Conflicts.SameVersionIff | app/services/assignment_conflicts.py:122-154 | two groups have one version exactly when they show the same candidates, rows, client statuses and active budgets |
| Conflicts.AuditTells | app/services/assignment_conflicts.py:254-283 | the audit row names group, caller, time, who is left, whose rows and which budgets are gone |
| Conflicts.OneConflictLess | app/services/assignment_conflicts.py:157-165 | a successful resolution leaves the winner alone with its identity, no other group changes, and exactly this conflict is gone |
| Conflicts.GroupCanSyncAgain | app/services/ad_accounts.py:59-84 | the mappings excluded from sync lose exactly the rows of the resolved group |
| Conflicts.LoserBudgetsRetired | app/services/assignment_conflicts.py:689-711 | each active loser budget is archived under the next version with exactly one history row, no other budget changes, no loser keeps one |
| Conflicts.SecondSuccessNeedsOldRows | app/services/assignment_conflicts.py:122-154 | whatever is written in between, two successes with one group version mean that every row the first one archived is back exactly as it was |
| Conflicts.AtMostOneResolver | app/services/assignment_conflicts.py:122-154 | so of any number of resolvers with one version at most one succeeds, as long as one archived row does not get its earlier update time back |
| ConflictStore.AssignmentConflictService.IdentityRowsForGroup | app/services/assignment_conflicts.py:568-580 | finds exactly the joined rows of the group's identity |
| ConflictStore.AssignmentConflictService.ActiveAccountBudgets | app/services/assignment_conflicts.py:663-673 | finds exactly the active account budgets of the given accounts |
| ConflictStore.AssignmentConflictService.AllowedClientIds | app/services/assignment_conflicts.py:414-453 | the caller's clients, or the refusal of an actor without the role, the seat or the agency |
| ConflictStore.AssignmentConflictService.BuildVersion | app/services/assignment_conflicts.py:122-154 | collects exactly the rows and active budgets the digest covers |
| ConflictStore.AssignmentConflictService.Check | app/services/assignment_conflicts.py:624-684 | the refusals, authorisation included, in the order of the code |
| ConflictStore.AssignmentConflictService.ArchiveBudgets | app/services/assignment_conflicts.py:686-711 | archives the given budgets with one history row each in id order |
| ConflictStore.AssignmentConflictService.ResolveConflict | app/services/assignment_conflicts.py:607-743 | a refusal changes nothing; otherwise all tables change as specified |
| Roles.ChangedUserGrants | app/services/auth_arch.py:316-424 | after a change of role or status an agency user has exactly its active agencies' clients, an admin or a user who left the agency or admin role none, others their direct grants; no other user is affected |
| Roles.PatchSets | app/services/auth_arch.py:344-435 | a patch sets the role and status it names and keeps the others |
| Roles.SoloRefusedIff | app/services/auth_arch.py:362-388 | refused for a would-be owner of one client exactly with an agency seat, more than one grant, or a foreign one |
| Roles.AssignedIff | app/services/auth_arch.py:583-674 | a grant is given exactly to an active user of the right role, for an existing client, and to a solo owner only as the only one; then it is there and nothing else changed |
| Roles.RemovedIsGone | app/services/auth_arch.py:683-689 | a removed grant is gone and no other one |
| Roles.DeletedIsGone | app/services/auth_arch.py:437-479 | a deleted user is gone with its seats and grants, nobody else's |
| Roles.PatchRefusedIff | app/services/auth_arch.py:390-409 | a patch is refused for the last admin or last agency owner exactly when letting it through would leave none |
| Roles.DeleteRefusedIff | app/services/auth_arch.py:437-467 | the same for a deletion, and the retention refusal |
| Roles.StepKeepsGrants | app/services/auth_arch.py:344-689 | every step keeps the grant rows fitting their user's role |
| Roles.StepKeepsLast | app/services/auth_arch.py:289-479 | no user step removes the last active admin or an agency's last effective owner |
| Roles.RolesOverRuns | app/services/auth_arch.py:288-689 | both over whole runs |
| Roles.GrantsByRole | app/services/auth_arch.py:583-689 | admins and inactive agency users have no grants, an active solo client at most one, agency grants exactly for agency users |
| AuthStore.SqliteAuthStore.AgencyOwnerExitAllowed | app/services/auth_arch.py:289-313 | true exactly when every agency the user actively owns has another effective owner |
| AuthStore.SqliteAuthStore.ClientsOfActiveAgencies | app/services/auth_arch.py:319-332 | finds exactly the clients of the active agencies in which an active agency user sits |
| AuthStore.SqliteAuthStore.RebuildActiveAgencyAccess | app/services/auth_arch.py:315-342 | the user's grants become the union over its active agencies, all other grants stay |
| AuthStore.SqliteAuthStore.PatchUser | app/services/auth_arch.py:344-435 | the patch step with its refusals and grant changes |
| AuthStore.SqliteAuthStore.DeleteUser | app/services/auth_arch.py:437-479 | the deletion step with its refusals |
| AuthStore.SqliteAuthStore.AssignClientAccess | app/services/auth_arch.py:583-674 | the assignment step with its refusals |
| AuthStore.SqliteAuthStore.RemoveClientAccess | app/services/auth_arch.py:683-689 | removes that grant and no other |
| StatsIngest.MergeAt | app/services/ad_stats.py:273-318 | per key the last row sets the metrics and the update time, the first row the creation time of a new key, other keys are untouched |
| StatsIngest.FirstIsFirst | app/services/ad_stats.py:273-318 | the row that sets the creation time is the first of its key |
| StatsIngest.LastIsLast | app/services/ad_stats.py:273-318 | the row that sets metrics and update time is the last of its key |
| StatsIngest.TallyCounts | app/services/ad_stats.py:273-319 | inserted is the number of new distinct keys, inserted plus updated the number of rows |
| StatsIngest.SameDigestIff | app/services/ad_stats.py:243-250 | two requests share a digest exactly when each key has the same rows in the same order |
| StatsIngest.SameDigestSameEffect | app/services/ad_stats.py:243-319 | requests the digest cannot tell apart have the same counts and show the same metrics on every table, whenever their rows are stored |
| StatsIngest.SameDigestSameTable | app/services/ad_stats.py:243-319 | with one clock reading, as in the table-backed store, even the times agree |
| StatsIngest.RespelledSameEffect | app/services/ad_stats.py:273-319 | amounts spelled differently have the same effect and counts |
| StatsIngest.RespelledDigestIff | app/services/ad_stats.py:243-250 | but their digests agree exactly when they are spelled alike, so a respelled replay is a conflict |
| StatsIngest.AnyOrder | app/services/ad_stats.py:243-319 | rows with distinct keys in any order give the same digest, map and counts |
| StatsIngest.KeyAnswersForever | app/services/ad_stats.py:259-272 | after any further requests a used key answers with the first counts or a conflict, exactly by digest, and changes nothing |
| StatsIngest.RefusalLeavesNoTraceIff | app/services/ad_stats.py:459-505 | a refused request leaves the in-memory store unchanged exactly when the key or the first row was at fault |
| StatsIngest.StoredFields | app/services/ad_stats.py:281-318 | each given field is stored in its own metric, by its value |
| StatsIngest.AcceptedIff | app/services/ad_stats.py:36-53 | a request goes through exactly when every row names an existing account on its own platform, and only its key is remembered |
| StatsStores.SqliteAdStatsStore.Ingest | app/services/ad_stats.py:252-336 | the loop and the transaction ingest as specified |
| StatsStores.InMemoryAdStatsStore.Ingest | app/services/ad_stats.py:459-505 | the in-place loop ingests as specified, keeping rows before a bad one |
| OAuthOptions.RoundTrip | app/main.py:2357-2454 | extracting what was embedded gives the path without reserved items and exactly the normalised options |
| OAuthOptions.PlainRoundTrip | app/main.py:2357-2454 | the same for the intent and mode texts in use |
| OAuthOptions.LastEmbeddingCounts | app/main.py:2367-2380 | embedding again replaces every option embedded before |
| OAuthOptions.PathComesBack | app/main.py:2367-2399 | the path comes back as it is, an empty one as the root |
| OAuthOptions.IntentTexts | app/main.py:2381-2384 | an intent is read in any case and padding, anything unknown is a login |
| OAuthOptions.ModeTexts | app/main.py:2385-2388 | a mode is read in any case and padding, anything unknown adds |
| OAuthOptions.WithOauthConnectOptions | app/main.py:2357-2399 | the list of items built by the appends |
| OAuthOptions.ExtractOauthConnectOptions | app/main.py:2402-2454 | the loop reads the last readable item of each reserved key and keeps all others in order |

## Left out

- QuarantineExactness: assumes that each claim of a queued command is made while the lock row names that command, because the claim itself does not look; the failing runs and exact conditions are proved beside it.
- NoWriteOverUnknown: assumes careful offline recoveries; `AlwaysExactIff` shows that this is exactly the condition and `WriteOverUnknown` an execution without it.
- ExecutionResolved: the same assumption.
- NeverTwoOwners: the triggers are modelled with the canonicalisation of the services, as the PostgreSQL schema writes it; both schemas trim blanks where the services strip all white space, and the SQLite triggers do not trim again behind a prefix and drop fewer separators.
- SingleOwnership: each step is atomic; that checks and write use separate connections is covered by `NeverTwoOwners` for owners, not for a second row of the same client under a different text; fields other than owner, platform, identifier and status are not modelled.
- PatchAccount: a patch that names none of the modelled fields is the identity; explicit nulls are not modelled.
- RolesOverRuns: changes of agencies, memberships, bindings and clients are arbitrary steps that leave users alone and only add agency grants to active agency users; sessions, identities, passwords and e-mail uniqueness are not modelled.
- KeyAnswersForever: the digest is taken to be injective on the canonical rows.
- CrashAndResume: timestamps and hashes in audit rows are left out; hashes are modelled as the values hashed.
- ValidateManifest: the shape, identity and reference checks of a manifest are inputs; what is modelled is their order, the row limit and the search for duplicates.
- SyncAccount: the outcome of the provider call, whether a metric field is readable and whether storing fails are inputs; currencies and credential selection are not modelled.
- RunSync: the listed accounts are an input; their selection by platform, status and ambiguity is not modelled.
- BackoffSpacing: for unforced serial runs of one account, whose job rows come in start order.
- ExclusiveRuns: the renewal thread itself is not modelled, only its calls.
- SelectDue: the latest job of each account is an input; accounts excluded as ambiguous are filtered before.
- RoundTrip: a next path is already normalised and split; percent-encoding and its inverse are taken as given, identifiers must read back from their text.
- ReplayIsReadOnly: the syntax check of idempotency keys and JSON snapshots of requests are not modelled.
- In-process lock dictionary of the routes: only a fallback when a store has no locks.
- The lookup of a quarantine before the lock is acquired in the confirm route: the acquire checks again.
- The provider clients, SQL text, row decoding, error messages, foreign keys to other tables.
- Upper-case letters and digits outside ASCII in platform names and identifiers.
- The clamp of very old Meta windows, environment parsing, HTTP routing, rate limits, metrics and the frontend.
- Identity hashing and file ownership checks of the migration command; the preflight's outcome is an input.
- In-memory resolver and in-memory user store: they follow the table-backed ones with fewer checks.
