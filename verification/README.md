# Mpango ERP: verified models of the concurrent and contract-checking core

This project models, in Dafny, the parts of Mpango whose correctness is a property of whole runs
rather than of single calls, and proves those properties. `dafny verify dfyconfig.toml` checks
everything.

**Tenant routing over one connection pool** (`SharedPool`, `PoolSafety`, `LockRelease`,
`PoolCalls`, `CallTraces`, `SessionTraces`, `SessionReset`, `JobTraces`, `ErrorPropagation`,
`ServerLaws`, `PoolEngine`, `Uuids`). A connection is its session-level search path, an optional
open transaction with a local path, and counted advisory locks. `get_db`, `get_platform_db`,
`get_tenant_db` and the materialized-view refresh job are small-step programs; between two steps
any other session may run, every awaited call may fail with or without effect, and a commit gives
the connection back, so the next statement may land elsewhere. A schedule is any list of such
steps. Safety is a global invariant of all schedules, because a session's closing reset need not
run on the connection its body used. Each session records the exceptions that occurred and the one
that leaves it, and each worker the connection on which it took its lock. A trace is the list of
calls that one session makes over a schedule, with their answers.

**The ORM tenant filter** (`TenantFilter`, `TenantIsolation`, `SelectAnswers`, `SystemScope`). A
statement is its mapped classes, predicate and added conjuncts over a row store. Filtering is
shown to be the same as running the unfiltered statement on the tenant's part of the database.

**The worktree executor, the diff rules and the batch runner** (`PathText`, `ForbiddenPaths`,
`GitOutput`, `WorktreeAudit`, `WorktreeScope`, `BatchRunner`, `BatchResume`, `BatchStory`,
`ShaRuns`, `NestedJson`, `ReportShas`). Git is commits, refs, HEAD, index, worktree and an ignore
set; a worker is any list of edits, stagings, commits and resets. The batch runner is a scheduler
with retries, stop on failure and resume. Reports are nested JSON, printed, shortened, parsed and
printed again.

**The rate limiter and the read-through cache** (`RateLimiter`, `RateBounds`, `RateCalls`,
`RateRestarts`, `RateExamples`, `RateLimiterService`, `ReadThroughCache`, `CacheTransparency`,
`CacheHits`). Interleaved clients over a store with expiry, in real time, with failures at every
call.

**Signed join intents** (`Base64Url`, `FlatJson`, `Decimal`, `JoinIntent`, `IntentLifetime`): flat
JSON, unpadded base64url (section 5 of RFC 4648), and a dot-joined token; HMAC (RFC 2104) is an
arbitrary function.

**The contract gates** (`ContractPaths`, `GitOutput`, `StatusListing`, `RunPacket`,
`DirectiveGate`, `MissionGate`, `WorkerGate`, `MissionBridge`, `GateContracts`, `GateReports`,
`GateExamples`): packet to directive to allowlist, and mission to worker to bridge. Each validator
reports its issues in the source's order and is equated with a positive reading of its contract.
The audits take git's lines and read the paths off them as the code does; `GitOutput` says how git
prints a name (bare, quoted, with escapes) and what stripping an output does to its lines, for all
names. `Touched` is every path the listed changes touch, a renamed file's old one included.

**Payment declarations** (`Declarations`, `DeclarationSafety`, `DeclarationCalls`,
`DeclarationTable`): concurrent transactions at READ COMMITTED with row locks, waits and
re-checks, guarded UPDATEs and the unique index.

Where the source updates objects in place or loops, the project has classes and loops proved equal
to a step function or specification; the theorems are about those functions over every run. Each
main theorem's text says what is quantified over.

## Where the code differs from what is said about it

- A tenant session does not stay on its tenant path after a commit inside its body
  (`CommitInBodyLosesTheTenant`); what holds is that it is never on another tenant's.
- The refresh job's unlock is documented as always releasing the lock. It does so exactly when
  the call lands on the connection that holds the lock, in a transaction that is not doomed,
  and the server executes it, or the connection is lost (`UnlockReleasesExactlyWhen`). After a
  failing REFRESH the transaction is doomed and the lock stays
  (`DoomedTransactionKeepsTheLock`); after a commit the pool decides
  (`AfterACommitTheUnlockIsBlind`); `LockMayOutliveItsJob` gives a schedule for each. When
  the answer to a granted try-lock is an exception, the worker goes straight to its close and the
  lock stays (`LostAnswerKeepsTheLock`); nothing but the end of the connection or some worker's
  unlock there ever takes a lock away (`OnlyUnlocksRelease`).
- `get_db` and `get_tenant_db` always raise the first exception (`FirstErrorPropagates`).
  `get_platform_db` and the refresh job raise the last one, so a failing rollback, unlock or
  close hides what went wrong first (`LastErrorPropagates`, `PlatformMayMask`).
- `validate_identifier` is documented to accept letters, digits and underscores only; its
  pattern also accepts one line feed at the end, and nothing else (`OnlyALineFeedMore`).
- `verify_join_intent` has a comment about a canonical round trip; nothing compares the
  signature's text with a canonical one, so any text that decodes to the signature is as good
  (`AnySignature`).
- The executor strips each git output before it cuts lines, and git prints names bare unless it
  escapes them. So a name with a blank at an end of the output is read as another one, a blank
  name is not read at all, and an escaped name is read with its escapes. A passed run with all
  four listings has kept to its expected files exactly when every misread name is an expected
  one (`PassedExactlyWhen`, `Execute`). For every expected file `f`, a worker that writes
  " " + `f` instead passes (`BlankSlipsThrough`); `MisreadFileSlipsThrough` says so of every
  name that is read as `f`, and `BlankNameSlipsThrough` of blank names.
- The executor skips git listings that fail. For workers that change plainly named files its
  verdict can be trusted exactly when all four succeeded or none did (`SoundExactlyWhen`).
- Resuming is documented to keep earlier successes. A stop-mode run keeps them for all outcomes
  exactly when they come first in the manifest (`ForgetsExactlyWhen`).
- All three gates read `git status` by cutting at the first " -> ", stripping blanks and quotes
  and turning backslashes round. `LineReadsExactlyWhen` says, for all names, off which lines the
  file's path is read: names with escapes are misread, and so are an unrenamed file with an
  arrow in its name and a renamed one with an arrow in its old name. The worker gate and the
  bridge strip the whole output first, so the first line of a file without a change in the index
  loses its blank: a bare name then loses its first character, a quoted one only its quote.
- So a gate that exits 0 need not have kept to its allowlist. It has, as far as one change goes,
  exactly under the conditions of `KeepsToExpectedExactlyWhen` and
  `KeepsToAllowlistExactlyWhen`; over a whole listing exactly when the paths of the misread lines
  and the old paths of renamed files are allowed (`TouchedByAnAcceptedRun`,
  `TouchedByAPassedWorker`, `TouchedByAPassedBridge`). A new file named `x -> p` is read as the
  allowed path `p`: unless git escapes the name of its report or result, every packet and every
  mission has a change that slips through (`EveryPacketHasABlindSpot`,
  `EveryMissionHasABlindSpot`). Any file can be renamed to an expected path
  (`RenamedFileSlipsThrough`).
- Two full commit ids as keys of one object in a report payload become one key when they agree
  in twelve digits, and a member is lost (`KeysMayMerge`, `WrittenIsShortenedExactlyWhen`).
- The fixed window allows its limit twice within one minute, whatever the limit
  (`TwiceTheLimitIsReached`). A call's count is its rank in its window exactly in the runs in
  which every INCR finds its counter alive or is the first (`CountsAreRanksExactlyWhen`); an
  INCR delayed past its window and the counter's expiry starts the count again
  (`LateIncrementRestarts`).
- Tenant ids with a colon can make users of different tenants share a rate-limit bucket
  (`ColonsMergeBuckets`).
- `int()` truncates towards zero, so an intent that expires before 1970 at a fractional second
  outlives its expiry (`NeverOutlivesItsExpiry` gives the exact condition).

## Model

| member | source | states |
|---|---|---|
| PoolSafety.RunKeeps | backend/database/session.py:78-212 | the global invariant holds after every schedule of public, platform, tenant and refresh sessions, with a failure possible at any statement, cleanup included |
| PoolSafety.PooledConnectionsAreClean | backend/database/session.py:94-212 | no idle connection ever has an open transaction or a tenant name in its session-level path; every other connection is held by exactly one unfinished session |
| PoolSafety.NeverAnotherTenant | backend/database/session.py:169-212 | no statement ever resolves under another tenant's schema; every statement of a tenant session's body comes after its SET LOCAL, and it resolves in the tenant exactly when no transaction of that session ended since the latest SET LOCAL |
| SessionTraces.SessionsAreWhole | backend/database/session.py:94-212 | after every schedule a finished session has made exactly the calls of its program and no others: it opened with its own path, its body queried, committed, rolled back or rescoped, it committed or, after an exception, rolled back, and `get_db` and `get_tenant_db` then set the public path, committed that, and closed, whatever failed before; its exceptions are those of the calls that failed and of its body |
| SessionTraces.BodyObeys | backend/database/session.py:109-166 | between yield and its end a session makes the call its handler asks for, commits on return, and goes to its handler on an exception; get_platform_db skips its rollback exactly for exceptions outside Exception |
| SessionReset.OpeningSetsThePath | backend/database/session.py:109-116 | a body starts only on a connection in whose open transaction names resolve in public, or in the tenant's schema first |
| SessionReset.CleanEndHandsBackPublic | backend/database/session.py:78-91 | in every reachable world, a `get_db` or `get_tenant_db` that comes to its close without a further exception has just handed its connection back idle, without a transaction, its search path public |
| SessionReset.ResetFailedExactlyWhen | backend/database/session.py:120-127 | after every schedule a finished one did not fail in its reset if and only if some action of the schedule ended it in that way |
| ServerLaws.TheLastPathCounts | backend/database/session.py:78-91 | what the statements of one transaction leave: in force is the path that SET or SET LOCAL gave last, a commit keeps that of the last SET and forgets every SET LOCAL, a rollback and the commit of a doomed transaction forget both |
| ServerLaws.ReturnsExactlyWhen | backend/database/session.py:30-36 | an awaited statement returns normally if and only if the session has or gets a connection, its transaction is not doomed, and the server answers |
| ErrorPropagation.FirstErrorPropagates | backend/database/session.py:110-134 | after every schedule a finished get_db or get_tenant_db raises the first exception that occurred, and none if none did: failures of rollback, reset and close never replace it |
| ErrorPropagation.LastErrorPropagates | backend/database/session.py:155-166 | a finished get_platform_db or refresh job raises the last exception, which is the first one if and only if neither rollback, unlock nor close failed after it |
| ErrorPropagation.PlatformMayMask | backend/database/session.py:155-166 | a schedule in which a failing rollback replaces the body's exception |
| PoolSafety.CommitInBodyLosesTheTenant | backend/database/session.py:190-196 | after a commit inside its body a tenant session may resolve outside its schema: a concrete schedule |
| PoolSafety.RefreshIsExclusive | backend/jobs/reporting_jobs.py:71-133 | between a successful try-lock and the end of the commit a worker holds its schema's lock and no other worker is there for that schema, for any hash function |
| PoolCalls.RefreshResolvesWhereItLocked | backend/jobs/reporting_jobs.py:71-125 | every REFRESH in the log of any schedule was run by a worker holding the lock of its schema on the connection it took it on, and resolves in that schema |
| JobTraces.JobsAreWhole | backend/jobs/reporting_jobs.py:53-133 | after every schedule a finished refresh job has made exactly these calls: none or one query for the schemas, then for each schema in order a refused try-lock, or a granted one, the SET LOCAL, a REFRESH that refreshed each requested view in this schema in order, a commit, the unlock and a commit; at an exception it unlocks if it has the lock, and stops; then it closes |
| JobTraces.NoSchemaIsLeftOut | backend/jobs/reporting_jobs.py:57-88 | a finished job without exceptions has come to every schema it found, or to its target: each refreshed or found busy |
| LockRelease.UnlockReleasesExactlyWhen | backend/jobs/reporting_jobs.py:127-133 | in every reachable state at the unlock, the call lowers the count of the lock on the connection where it was taken, by one, if and only if that connection still holds it, the call lands there, and either the connection is lost or its transaction is not doomed and the server executed the call |
| LockRelease.AfterACommitTheUnlockIsBlind | backend/jobs/reporting_jobs.py:125-133 | at the unlock a worker in which nothing failed holds no connection: the release depends on the one the pool hands out |
| LockRelease.DoomedTransactionKeepsTheLock | backend/jobs/reporting_jobs.py:106-133 | after a statement that doomed the transaction the unlock fails whatever the pool does, and closing returns the connection with the lock |
| LockRelease.LockMayOutliveItsJob | backend/jobs/reporting_jobs.py:127-133 | a schedule for each route: a failing REFRESH, and a run in which nothing fails |
| ServerLaws.LocksCount | backend/jobs/reporting_jobs.py:74-133 | each granted try-lock counts one more, each unlock one less if there is one; transactions do not matter |
| ServerLaws.GrantedExactlyWhen | backend/jobs/reporting_jobs.py:74-81 | a try-lock is granted if and only if no other connection has the lock |
| PoolCalls.OnlyUnlocksRelease | backend/jobs/reporting_jobs.py:71-133 | whatever step is taken, a connection's count of a lock drops only if the connection is gone or the step is an unlock with that key |
| PoolCalls.LostAnswerKeepsTheLock | backend/jobs/reporting_jobs.py:74-88 | when a granted try-lock answers with an exception, the worker's next call is its close, which returns the connection with one lock more |
| PoolEngine.Engine.RunBody | backend/api/v1/orders.py:184-188 | the handler's code between yield and epilogue, with the SET LOCAL that handlers repeat after a rollback, does the body step of the model and keeps the invariant |
| PoolEngine.Engine.Generator | backend/database/session.py:94-212 | one step of the three session generators on the mutable pool is the model's step and keeps the invariant of pool, locks, scopes and program counters |
| PoolEngine.Engine.RefreshOne | backend/jobs/reporting_jobs.py:71-133 | one step of the lock, set path, refresh, commit, unlock loop is the model's step and keeps the invariant |
| PoolEngine.Engine.RefreshViews | backend/jobs/reporting_jobs.py:53-133 | one step of the refresh job, schema discovery included, is the model's step and keeps the invariant |
| PoolEngine.Drive | backend/database/session.py:94-212 | running any schedule on the mutable pool ends in the modelled world: nothing idle carries a tenant, no name was resolved in another tenant's schema, and guarded sessions raised their first error |
| Uuids.SchemasAreDistinct | backend/models/wholesaler.py:83-90 | two wholesalers have the same tenant schema if and only if they are the same |
| Uuids.SchemaIsSafeIdentifier | backend/db/sql_safety.py:26-51 | every derived schema name passes the identifier check |
| Uuids.OnlyALineFeedMore | backend/db/sql_safety.py:26-51 | the names that the check accepts beyond identifiers are exactly the identifiers with one line feed behind them |
| Uuids.IdentifiersGrow | backend/db/sql_safety.py:26-51 | identifiers start with a letter or an underscore and grow by letters, underscores and digits up to 63 characters |
| Uuids.ParseIgnoresCase | backend/core/join_intent.py:124-125 | the letter case of a UUID's text does not matter |
| TenantFilter.ApplyCriteria | backend/db/tenant_filter.py:148-174 | the loop over the mappers adds exactly the conjuncts of the specification, in order |
| TenantIsolation.EveryOwnedMapperIsFiltered | backend/db/tenant_filter.py:97-174 | once the context check accepts, exactly one ownership conjunct is added per class carrying tenant_id or wholesaler_id, none skipped |
| TenantIsolation.SkippedExactlyWhen | backend/db/tenant_filter.py:119-174 | the loop alone drops a conjunct if and only if the tenant id is no UUID and some class is owned through wholesaler_id alone |
| TenantIsolation.FilteredIsRestricted | backend/db/tenant_filter.py:148-174 | a rewritten statement gives, row for row and in order, what the original gives on the tenant's part of the database |
| TenantIsolation.OtherTenantsAreInvisible | backend/db/tenant_filter.py:148-199 | databases that agree on the tenant's rows answer every accepted SELECT alike |
| TenantIsolation.AffectedIsOwned | backend/db/tenant_filter.py:148-199 | a row touched by an accepted UPDATE or DELETE is the tenant's own |
| TenantIsolation.UpdateStaysHome | backend/db/tenant_filter.py:148-199 | an accepted UPDATE leaves every other tenant's row in place and unchanged, and every other table |
| TenantIsolation.UpdateIsRestricted | backend/db/tenant_filter.py:148-199 | a row gets the new values exactly when the original UPDATE, on the tenant's part of the database, would have given them to it |
| TenantIsolation.DeleteStaysHome | backend/db/tenant_filter.py:148-199 | an accepted DELETE keeps the other tenants' rows as the same list |
| TenantIsolation.DeleteIsRestricted | backend/db/tenant_filter.py:148-199 | on the tenant's rows an accepted DELETE does what the original would do there |
| TenantIsolation.NothingOwnedRunsUnfiltered | backend/db/tenant_filter.py:128-199 | without a bypass the hook either refuses a SELECT, UPDATE or DELETE on an owned class or restricts it to the tenant |
| TenantIsolation.HookFiltersByTheTenant | backend/db/tenant_filter.py:76-199 | without a bypass: no schema in session or request is an error; the tenant is the session's, or the request's if the session names none, and the answer is that of the database restricted to it; without any tenant a statement on an owned class is an error and every other runs as it is; a tenant id that is no UUID is an error where a class has wholesaler_id |
| TenantIsolation.BypassLeavesTheStatement | backend/db/tenant_filter.py:177-196 | `ignore_tenant`, a reason in the session or in the context, and statements of other kinds leave the statement as it is |
| SelectAnswers.SelectedExactlyWhen | backend/db/tenant_filter.py:167-174 | what a statement finds: exactly the combinations of one row per class that meet all conjuncts and the statement's own condition |
| SelectAnswers.FilterTakesTheOthersAway | backend/db/tenant_filter.py:148-199 | a filtered statement finds exactly what the original finds, less the combinations with another tenant's row of an owned class |
| SystemScope.ContextVariable.Execute | backend/db/tenant_filter.py:25-41 | the context variable is restored after any nesting of blocks and exceptions, and the bypass held exactly inside the blocks |
| SystemScope.BypassIsLexical | backend/db/tenant_filter.py:25-41 | a statement is bypassed only inside a block, and filtered statements stand outside all blocks, also behind an exception |
| PathText.LedgerPathsAreConfined | scripts/platform_worktree_executor.py:82-141 | an accepted report or mission path names a file strictly below ai-ledger/platform |
| PathText.LedgerPathsExactly | scripts/platform_worktree_executor.py:82-141 | a report or mission path is accepted if and only if it reads `ai-ledger/platform/<names>.json`, with slashes of either kind |
| WorktreeAudit.CollectChangedFiles | scripts/platform_worktree_executor.py:361-400 | the collected files are exactly what is read off the stripped outputs of the commands that succeeded, each once, in the order of their first appearance |
| WorktreeAudit.ScanChanged | scripts/platform_worktree_executor.py:332-345 | the violation, unexpected and forbidden lists the loop builds, in order and with repetitions |
| WorktreeAudit.AuditAgainstExpected | scripts/platform_worktree_executor.py:322-358 | the audit passes if and only if every changed file is expected and allowed and every expected file changed; the violations are the guilty files in order and then each missing file once; said of the files as given: a changed file in a reserved directory or with a reserved word, or named by the mission as forbidden, is in `forbidden` with that reason and the audit fails, also when it is expected, and nothing else is in `forbidden` |
| ForbiddenPaths.WordsAreWholeWords | scripts/platform_diff_auditor.py:38-53 | the keyword rule finds a word exactly where it stands as a whole word |
| ForbiddenPaths.ForbiddenExactlyWhen | scripts/platform_diff_auditor.py:15-53 | for all paths: forbidden are exactly those in one of the six directories or with one of the six words as a whole word, whatever the slashes and the letter case |
| WorktreeScope.ListingsAreComplete | scripts/platform_worktree_executor.py:377-400 | the four listings together show exactly the paths that differ from the base in HEAD, index or worktree, untracked ignored files aside |
| WorktreeScope.NameReadsExactlyWhen | scripts/platform_worktree_executor.py:361-400 | for all names and places in a listing: a name is read as it is if and only if git does not escape it, it is not blank, and it has no blank at an end of the output |
| WorktreeScope.PassedExactlyWhen | scripts/platform_worktree_executor.py:322-400 | with four listings and a passing audit, every path outside expected_files is as in the base if and only if every misread name is an expected one |
| WorktreeScope.Execute | scripts/platform_worktree_executor.py:474-558 | for every worker, a passed verdict with all listings means nothing outside expected_files changed if and only if every misread name is an expected one; every expected file was read off a changed one, and did change when all names are read right; and then nothing in a reserved directory or with a reserved word changed, expected or not |
| WorktreeScope.SoundExactlyWhen | scripts/platform_worktree_executor.py:391-393 | the verdict can be trusted after every worker that changes plainly named files, in every repository and for every mission, if and only if all four listings succeeded or none did; for each pair of a seen and a missed listing a worker is given |
| WorktreeScope.MisreadFileSlipsThrough | scripts/platform_worktree_executor.py:361-400 | for every repository, expected file and other name that is read as it: a worker that writes the other file passes with all four listings |
| WorktreeScope.BlankSlipsThrough | scripts/platform_worktree_executor.py:370-370 | such names are every expected one with a blank in front or behind |
| WorktreeScope.BlankNameSlipsThrough | scripts/platform_worktree_executor.py:393-393 | a new file whose name is blank passes beside the expected one |
| WorktreeScope.SymbolicHeadIsUnsound | scripts/platform_worktree_executor.py:477-482 | the reason given for the resolved base is right: an audit against the name HEAD would accept a committed unexpected file |
| WorktreeScope.MovingTheBaseGainsNothing | scripts/platform_worktree_executor.py:477-482 | a worker that moves the base's own name changes nothing about the listings against the resolved base |
| BatchRunner.RunWithRetries | scripts/platform_worktree_batch_runner.py:229-242 | the retry loop's entry, attempt count and started executions |
| BatchResume.RetryVerdict | scripts/platform_worktree_batch_runner.py:229-242 | attempts is the first success or max(0, max_retries) + 1; passed, retried and failed say which attempt passed |
| BatchRunner.LoadResumeState | scripts/platform_worktree_batch_runner.py:258-274 | the resumed state is exactly the report's successes, a later entry winning |
| BatchRunner.Schedule | scripts/platform_worktree_batch_runner.py:281-341 | the scheduling loop yields the specified entries, aggregate, stop flag and executions |
| BatchRunner.BuildPayload | scripts/platform_worktree_batch_runner.py:344-383 | the counts of the report |
| BatchRunner.RunBatch | scripts/platform_worktree_batch_runner.py:281-341 | a whole run from an earlier report: entries, executions, aggregate, stop flag and counters |
| BatchStory.EveryMissionIsAccountedFor | scripts/platform_worktree_batch_runner.py:229-341 | for every manifest, earlier report, mode and outcomes: a mission is skipped if and only if the batch stops on failure and one before it fails; otherwise its last earlier success is carried over unrun, or it is tried until an attempt passes or the retries are used up, and its entry says which |
| BatchRunner.ValidateMissions | scripts/platform_worktree_batch_runner.py:130-145 | accepted if and only if the list is non-empty, every path is a confined ledger path and no two normalise alike |
| BatchResume.ReportShape | scripts/platform_worktree_batch_runner.py:298-383 | one entry per mission in manifest order, counts adding up, passed iff all succeed, skipped entries only as the whole suffix after exactly one failure |
| BatchResume.DoneIsNotRerun | scripts/platform_worktree_batch_runner.py:298-317 | a mission that the earlier report calls a success is not executed |
| BatchResume.ForgetsExactlyWhen | scripts/platform_worktree_batch_runner.py:298-317 | a run keeps all earlier successes for all outcomes if and only if it continues after failures or the successes come first |
| BatchResume.StopModeKeepsPrefix | scripts/platform_worktree_batch_runner.py:298-317 | in stop mode the successes form a prefix of the manifest |
| BatchResume.ChainIsSound | scripts/platform_worktree_batch_runner.py:258-317 | along any chain of runs in one mode the report stays resumable, and in stop mode its successes stay a prefix |
| BatchResume.NextRunKeeps | scripts/platform_worktree_batch_runner.py:258-317 | one more run in the same mode keeps every success and its verdict and executes none of them |
| BatchResume.SuccessIsForever | scripts/platform_worktree_batch_runner.py:258-317 | along a whole chain a success keeps its verdict and is never executed again |
| BatchResume.FullSuccessIsFixpoint | scripts/platform_worktree_batch_runner.py:258-383 | after full success the next run executes nothing, repeats the report and passes |
| ShaRuns.ShortenActsOnPieces | scripts/platform_worktree_executor.py:62-67 | every maximal hexadecimal run of length 40 becomes its first 12 digits; every other run and character stays, in order |
| ShaRuns.LoneRun | scripts/platform_worktree_executor.py:62-67 | a run of digits between characters that are none: forty, in either letter case, become the first twelve, any other number stays |
| ShaRuns.ShortenRemovesThemAll | scripts/platform_worktree_batch_runner.py:405-419 | a sanitised text holds no full commit id, sanitising is idempotent, and it changes a text if and only if it held one |
| ShaRuns.ShortenLength | scripts/platform_worktree_executor.py:62-67 | each hit shortens the text by 28 |
| ShaRuns.DecodedTextMayKeepOne | scripts/platform_worktree_executor.py:70-71 | the rule is about JSON text: behind an escaped backspace a commit id is kept, and the decoded text holds it |
| NestedJson.LoadsDumps | scripts/platform_worktree_executor.py:70-71 | parsing an indented print gives the value back, for all nested values, texts and integers, with a dictionary for each object |
| NestedJson.LoadedExactlyWhen | scripts/platform_worktree_executor.py:70-71 | parsing changes a value if and only if one of its objects names a key twice |
| ReportShas.ShortenPrinted | scripts/platform_worktree_executor.py:62-71 | shortening a printed value prints the value with each text, key and number shortened by itself, also where a run starts inside an escape |
| ReportShas.SanitizedPayload | scripts/platform_worktree_executor.py:70-71 | the shortened text always parses, and to what |
| ReportShas.WrittenReportHasNoFullSha | scripts/platform_worktree_executor.py:434-467 | every payload can be written, and no written report text holds a full commit id |
| ReportShas.SanitizeIsIdempotent | scripts/platform_worktree_executor.py:70-71 | sanitising a sanitised payload changes nothing |
| ReportShas.WrittenIsShortenedExactlyWhen | scripts/platform_worktree_executor.py:434-467 | the report is the shortened text of the payload if and only if shortening makes no two keys of an object equal |
| ReportShas.KeysMayMerge | scripts/platform_worktree_executor.py:70-71 | for any two commit ids that agree in twelve digits, as keys: only the last member is reported |
| RateBounds.RedisKeysAreDistinct | backend/core/rate_limiter.py:76-78 | a counter belongs to one key and one window, whatever the key contains |
| RateBounds.BucketsAreSeparate | backend/core/rate_limiter.py:194-211 | endpoint buckets of colon-free namespaces coincide only for equal namespace and address, and never with a global bucket |
| RateBounds.TenantBucketsAreSeparate | backend/core/rate_limiter.py:156-192 | verified callers share a bucket if and only if tenant, colon and user read the same; for colon-free tenant ids that is the same user of the same tenant |
| RateCalls.BucketAndLimit | backend/core/rate_limiter.py:156-192 | a caller with a verified tenant and user has their bucket and 1000 calls, every other one the bucket of the address and 100 |
| RateCalls.AddressesAreSeparate | backend/core/rate_limiter.py:156-192 | without a verified tenant and user, callers share a bucket if and only if they have the same address, and never with a verified caller |
| RateBounds.ColonsMergeBuckets | backend/core/rate_limiter.py:156-192 | a colon in a tenant id can merge the buckets of users of different tenants |
| RateRestarts.CountOfAnIncrement | backend/core/rate_limiter.py:80-88 | in every reachable state an executed INCR returns one more than the number executed before it in its window if and only if its counter is alive and exact, or it is the first; never more |
| RateRestarts.CountsAreRanksExactlyWhen | backend/core/rate_limiter.py:80-88 | along a run every INCR returned its rank if and only if each found its counter alive or was the first of its window |
| RateRestarts.FirstCallsOfEachWindow | backend/core/rate_limiter.py:80-123 | in exactly these runs each counter lets its first `limit` executed calls through: the verdict of an answered call depends on its rank alone |
| RateRestarts.PunctualRunsAreUnbroken | backend/core/rate_limiter.py:76-103 | INCRs that land in the window they read are of this kind: the expiry cannot reset their counter |
| RateBounds.RedisUpMeansNoFailOpen | backend/core/rate_limiter.py:80-136 | with Redis up every INCR counts and nobody fails open |
| RateCalls.EveryRecordHasItsCall | backend/core/rate_limiter.py:73-136 | over every run, each counted call is traced to its own actions: bucket, limit and window are those it began with; a failed INCR, or a failed EXPIRE after a first one, lets it through, and every other call is let through if and only if its count is within its limit |
| RateCalls.CountersLastAMinute | backend/core/rate_limiter.py:86-88 | a counter that was given its time to live is alive for exactly one minute |
| RateBounds.AtMostTwiceTheLimit | backend/core/rate_limiter.py:73-136 | in any 60-second interval at most twice the limit gets through, plus one per failed-open call |
| RateExamples.TwiceTheLimitIsReached | backend/core/rate_limiter.py:76-123 | the factor two is attained for every limit |
| RateExamples.LateIncrementRestarts | backend/core/rate_limiter.py:76-88 | an INCR later than its window and the expiry restarts the count: a schedule |
| RateExamples.AliveIsNotEnough | backend/core/rate_limiter.py:80-88 | after a restart the counter is alive but stays behind: a schedule in which a further INCR returns less than its rank |
| RateBounds.RetryReachesNextWindow | backend/core/rate_limiter.py:119-119 | retry_after is in 1..60 and leads to the first whole second of the next window |
| RateLimiterService.Limiter.CheckRateLimit | backend/core/rate_limiter.py:60-136 | the whole call on the mutable store is the protocol's steps |
| ReadThroughCache.CachedFunction.Wrapper | backend/core/cache.py:201-300 | the whole call on the mutable store is the protocol's steps; whenever the function ran its result is the answer |
| CacheTransparency.ReturnedValuesHaveASource | backend/core/cache.py:201-300 | every returned value is this call's own result or the round trip of a result for the same key stored less than ttl before |
| CacheTransparency.CacheIsTransparent | backend/core/cache.py:167-300 | if the result depends only on the key and round-trips, the cached function equals the function |
| CacheHits.HitExactlyWhen | backend/core/cache.py:201-262 | a look-up answers at once, with the decoded value, if and only if Redis answers and the key has a live cell that can be read; otherwise the function is run |
| CacheHits.StoredIsFound | backend/core/cache.py:201-271 | over every run: a stored value answers each look-up of its key less than the time to live later, without running the function, unless the key was written or invalidated in between |
| CacheHits.InvalidatedIsGone | backend/core/cache.py:307-337 | after an invalidation no look-up of the key is answered from the store until it is written again |
| CacheHits.CallsAnswerForTheirArguments | backend/core/cache.py:189-300 | over every run a call raises only what its own execution of the function raised, and what it does not take from the store its own execution returned |
| CacheTransparency.KeysAreDistinct | backend/core/cache.py:97-119 | colon-free argument texts give the same key if and only if they are equal, except that no argument equals the single argument "default" |
| CacheTransparency.KeysCollide | backend/core/cache.py:97-119 | keys are not injective in general |
| Base64Url.RoundTrip | backend/core/join_intent.py:58-64 | decoding undoes encoding for every byte string |
| Base64Url.EncodeUsesAlphabet | backend/core/join_intent.py:58-64 | the output has only the URL-safe alphabet, no dot and no '=', its length is fixed by the input's, and the padding formula restores the padded text |
| FlatJson.ParsePrint | backend/core/join_intent.py:94-96 | parsing a printed object of texts and integers gives its members back, for all Unicode texts and all integers |
| FlatJson.PrintIsAscii | backend/core/join_intent.py:94-96 | the printed payload is ASCII whatever the texts contain |
| Joined.SplitOnceJoined | backend/core/join_intent.py:110-110 | the split is at the first separator, whatever follows it |
| JoinIntent.VerifyIssued | backend/core/join_intent.py:72-131 | an issued intent verifies to exactly its supplier, code and expiry second while now is before it, and fails from then on |
| JoinIntent.NeverOutlivesItsExpiry | backend/core/join_intent.py:85-121 | the verified expiry is within one second of the issued one, and never after it if and only if that is not before 1970 or is a whole second |
| IntentLifetime.AcceptedExactlyWhile | backend/core/join_intent.py:85-127 | for all times and lifetimes: an intent is issued if and only if its end fits a datetime, ends exactly `ttl` seconds after it was issued, and is accepted if and only if the time is before the second of its end, for exactly its supplier and code |
| IntentLifetime.PayloadSpelledOut | backend/core/join_intent.py:87-96 | the payload is one JSON object, member by member: code, exp, jti, v and ws with their values, sorted, without white space |
| IntentLifetime.WhatIsSigned | backend/core/join_intent.py:67-98 | the signature is the hash of the payload text under the hash of `join_intent:v1` under the secret, behind the first dot |
| IntentLifetime.SignatureIsNotTransferable | backend/core/join_intent.py:97-119 | for a hash without collisions, the signature of an issued payload is refused in front of any other payload |
| IntentLifetime.SignedIsNotEnough | backend/core/join_intent.py:114-127 | a rightly signed object is accepted if and only if it has version 1, a future second, a supplier's UUID and a code |
| JoinIntent.AnySignature | backend/core/join_intent.py:102-131 | for an issued payload text and any other signature text: accepted exactly when it decodes to the signature before expiry, and then names what was issued |
| JoinIntent.OtherKeysReject | backend/core/join_intent.py:67-69 | an intent signed under another key is accepted if and only if both keys sign its payload alike |
| JoinIntent.IntentsAreUnambiguous | backend/core/join_intent.py:87-98 | intents with the same text have the same claims and signature |
| JoinIntent.OnlyIssuedSuppliers | backend/core/join_intent.py:102-131 | if signatures cannot be made without the key, any presented text is refused or names a supplier the server issued an intent for |
| ContractPaths.MissionRuleAgainstWorkerRule | scripts/platform_opencode_worker_gate.py:45-56 | the worker's path rule accepts what the mission's rule accepts, and beyond that exactly the non-empty texts of white space |
| ContractPaths.NormalizedIsAccepted | scripts/platform_run_packet_gate.py:83-97 | a path is accepted if and only if its normalised form is |
| ContractPaths.ForbiddenExactlyWhen | scripts/platform_run_packet_gate.py:57-82 | for all paths: forbidden are exactly those in one of the four directories, the one document, and those with one of the six words anywhere, in any letter case |
| ContractPaths.ContractPathsExactly | scripts/platform_run_packet_gate.py:83-97 | accepted are exactly the texts that are not empty, start at no root or drive, have a name in every place between their slashes, and are not off limits |
| ContractPaths.SafeRelativeExactly | scripts/platform_agent_mission_gate.py:66-77 | the mission gate accepts exactly these, less texts of white space |
| ContractPaths.LedgerFilesExactly | scripts/platform_opencode_worker_gate.py:59-67 | a report, result or events path is accepted if and only if it is such a path below ai-ledger/platform/ with one of its suffixes |
| GateReports.FaultExactly | scripts/platform_run_packet_gate.py:83-97 | which fault a refused path gets: no text, rooted, an unsafe part, or off limits, the first that applies |
| GateReports.SafeFaultExactly | scripts/platform_agent_mission_gate.py:66-77 | the same for the mission gate, where going up is a fault of its own |
| ContractPaths.ContractPathsStayInside | scripts/platform_run_packet_gate.py:57-97 | an accepted path leads, part by part, inside the repository and not into backend or frontend |
| StatusListing.DirectiveGateSeesAllExactlyWhen | scripts/platform_directive_gate.py:93-116 | when no name is misread, the directive gate reads every touched path if and only if the old path of each renamed file is also a listed one |
| StatusListing.WorkerGateSeesAllExactlyWhen | scripts/platform_opencode_worker_gate.py:80-103 | when whole lines are read right, the worker gate and the bridge read exactly the touched paths if and only if that holds and the first line is read right as it is left |
| StatusListing.LineReadsExactlyWhen | scripts/platform_opencode_worker_gate.py:80-103 | for all names, whole and cut lines, renamed files or not: off a line the present path is read if and only if git escapes nothing in it, no arrow stands too early, and a lost blank took a quote and not a character |
| StatusListing.AuditCoversExactlyWhen | scripts/platform_opencode_worker_gate.py:91-103 | for all listings, a passed audit covers all touched paths if and only if the paths of misread lines and the old paths of renamed files are allowed |
| StatusListing.WorkerTrustsExactlyWhen | scripts/platform_opencode_worker_gate.py:80-103 | a passed audit can be trusted with a first change if and only if it is read right, or allowed, or read as something not allowed |
| StatusListing.DirectiveTrustsExactlyWhen | scripts/platform_directive_gate.py:93-137 | the same for the directive gate and any change; a path read as nothing is not audited |
| StatusListing.EveryAllowlistHasABlindSpot | scripts/platform_opencode_worker_gate.py:80-103 | for every allowlist with a path that git does not escape, some change outside it passes the audits of all three gates |
| StatusListing.CollectChangedPaths | scripts/platform_opencode_worker_gate.py:91-103 | the loop over the stripped lines collects the set of paths |
| StatusListing.GetChangedFiles | scripts/platform_directive_gate.py:93-116 | the loop over git's lines collects the set of non-empty paths |
| RunPacket.ValidatePacket | scripts/platform_run_packet_gate.py:159-287 | the empty list if and only if the packet meets the positive contract; otherwise the issues in order, with their early exits, or the exception on an entry that is not a text |
| RunPacket.AcceptedPackets | scripts/platform_run_packet_gate.py:159-287 | no issue is reported if and only if the packet meets the positive reading of its contract |
| GateContracts.PacketGateExactly | scripts/platform_run_packet_gate.py:159-287 | no issue if and only if the packet keeps the contract as spelled out field by field: phase, current branch, known agent, risk, command, ledger report, safe allowed and expected files with everything expected allowed and the report expected, tests, notes, the flag exactly on platform-dev |
| GateReports.PacketReportsExactly | scripts/platform_run_packet_gate.py:159-287 | for all packets: a missing field gets exactly the missing fields reported, a file list with something that is no text raises, and otherwise each issue is reported if and only if it is the case |
| GateContracts.DirectiveCopies | scripts/platform_run_packet_gate.py:301-308 | the directive has exactly the seven named fields of its packet, unchanged, and the flag |
| RunPacket.BuildDirective | scripts/platform_run_packet_gate.py:301-308 | the loop copies exactly the directive's fields |
| DirectiveGate.ValidateDirective | scripts/platform_directive_gate.py:168-243 | the empty list if and only if the directive meets the positive contract; otherwise the issues in order, with their two early exits |
| DirectiveGate.AcceptedDirectives | scripts/platform_directive_gate.py:168-243 | no issue is reported if and only if the directive meets the positive reading of its contract |
| GateContracts.DirectiveGateExactly | scripts/platform_directive_gate.py:168-243 | no issue if and only if the directive keeps the same contract, without agent, tests and scope |
| GateReports.DirectiveReportsExactly | scripts/platform_directive_gate.py:168-243 | for all directives: missing fields are reported alone, wrong kinds before anything else, and otherwise each issue if and only if it is the case |
| DirectiveGate.AcceptedPacketGivesAcceptedDirective | scripts/platform_run_packet_gate.py:112-126 | every accepted packet, normalised and turned into a directive, is accepted by the directive gate on the same branch |
| DirectiveGate.AllowlistIssues | scripts/platform_directive_gate.py:119-137 | no issue if and only if the changed files are a subset of the expected ones, also when nothing is expected |
| DirectiveGate.Gate | scripts/platform_directive_gate.py:301-358 | exit 0 if and only if the directive may be run and it is a dry run, or the runner exited 0, git answered and every path read off its lines is expected; the other exits |
| DirectiveGate.RunOfAnAcceptedPacket | scripts/platform_directive_gate.py:323-358 | for an accepted packet the gate exits 0 if and only if it is a dry run, or the runner exited 0 and every path read off git's lines is in the packet's expected_files |
| DirectiveGate.TouchedByAnAcceptedRun | scripts/platform_directive_gate.py:323-358 | after a passed run nothing outside expected_files was touched if and only if the paths of misread lines and the old paths of renamed files are expected |
| DirectiveGate.KeepsToExpectedExactlyWhen | scripts/platform_directive_gate.py:93-137 | for a given change, exit 0 means that its path is expected if and only if it is read right, or expected, or read as something not expected |
| DirectiveGate.EveryPacketHasABlindSpot | scripts/platform_directive_gate.py:109-116 | for every accepted packet whose report's name git does not escape, some change that is not expected leaves exit 0 |
| DirectiveGate.RenamedFileSlipsThrough | scripts/platform_directive_gate.py:109-116 | for every accepted packet, renaming any file to an expected path that is read right passes |
| DirectiveGate.ScopeOfAnAcceptedPacket | scripts/platform_run_packet_gate.py:231-265 | expected_files are a subset of allowed_files, the report is in both, and every allowed file is a safe relative path outside the forbidden areas |
| MissionGate.ValidateMission | scripts/platform_agent_mission_gate.py:105-171 | the empty list if and only if the value is an object that meets the positive contract; otherwise the failures in order, with their early exits |
| MissionGate.AcceptedMissions | scripts/platform_agent_mission_gate.py:105-171 | no failure is reported if and only if the mission meets the positive reading of its contract |
| GateContracts.MissionGateExactly | scripts/platform_agent_mission_gate.py:105-171 | no failure if and only if the mission keeps the contract as spelled out: phase P1- to P8-, known agent, .md mission, expected files, .json result and .jsonl events in the ledger, 1 to 43200 seconds, optional fields |
| GateReports.MissionReportsExactly | scripts/platform_agent_mission_gate.py:105-171 | for all missions: missing keys are reported alone, and otherwise each failure if and only if it is the case |
| WorkerGate.ValidateArgs | scripts/platform_opencode_worker_gate.py:211-235 | accepted if and only if every argument is; then whatever may change is a normalised path that the contract rules accept, the expected files included |
| GateContracts.ArgsExactly | scripts/platform_opencode_worker_gate.py:211-235 | the worker gate runs exactly with safe paths, ledger outputs and a positive timeout, and then allows the expected files and its two outputs to change, nothing else |
| GateContracts.ResultExactly | scripts/platform_opencode_worker_gate.py:106-124 | a worker's result is accepted if and only if it has a known status, a list of names, a test result and no blocker but a text or null |
| WorkerGate.WorkerMain | scripts/platform_opencode_worker_gate.py:209-316 | exit 0 if and only if the run passes; a killed worker gives 124, or 1 exactly when its result file cannot be read, git hangs, or git fails in the audit; the other exits |
| WorkerGate.TimeoutResult | scripts/platform_opencode_worker_gate.py:184-193 | the result written after a timeout is well-formed, says partial and names exactly the expected files that changed |
| WorkerGate.WorkerPassesExactlyWhen | scripts/platform_opencode_worker_gate.py:264-316 | exit 0 if and only if the arguments, the worker, its report and the audit of the paths read off git's lines agree |
| WorkerGate.TouchedByAPassedWorker | scripts/platform_opencode_worker_gate.py:296-316 | a passed run touched allowed paths only, if and only if the paths of misread lines and the old paths of renamed files are allowed |
| MissionBridge.BuildWorkerCommand | scripts/platform_mission_worker_bridge.py:51-70 | the worker's arguments are the mission's values |
| MissionBridge.AuditActualChanges | scripts/platform_mission_worker_bridge.py:80-88 | from git's lines, the unexpected and the forbidden paths; both are empty if and only if every path read is in scope |
| MissionBridge.BridgeMain | scripts/platform_mission_worker_bridge.py:125-181 | exit 0 if and only if the mission is one the bridge runs and it is a dry run, or the worker exited 0 and every path read off git's lines is allowed; the other exits |
| MissionBridge.AcceptedMissionIsAcceptedByTheWorker | scripts/platform_mission_worker_bridge.py:51-77 | every accepted mission passes the worker gate's own checks, and both sides have the same allowlist |
| MissionBridge.AllowedIsNeverForbidden | scripts/platform_mission_worker_bridge.py:73-88 | nothing on the allowlist is forbidden |
| MissionBridge.AuditsAgree | scripts/platform_mission_worker_bridge.py:157-181 | when git lists the same to both, the bridge passes if and only if the worker gate it started did |
| MissionBridge.TouchedByAPassedBridge | scripts/platform_mission_worker_bridge.py:161-181 | after exit 0 all touched paths are on the allowlist if and only if the paths of misread lines and the old paths of renamed files are |
| MissionBridge.KeepsToAllowlistExactlyWhen | scripts/platform_mission_worker_bridge.py:80-88 | for a given first change, exit 0 means that its path is allowed if and only if it is read right, or allowed, or read as something not allowed |
| MissionBridge.EveryMissionHasABlindSpot | scripts/platform_mission_worker_bridge.py:161-181 | for every mission the bridge runs whose result's name git does not escape, some changed file outside the allowlist leaves exit 0 |
| GateExamples.SmallPacketIsAccepted | scripts/platform_run_packet_gate.py:159-287 | the packet contract can be met: a concrete accepted packet |
| GateExamples.SmallMissionIsAccepted | scripts/platform_agent_mission_gate.py:105-171 | the mission contract can be met: a concrete accepted mission |
| DeclarationSafety.RunKeeps | backend/repositories/payment_declaration_repository.py:207-310 | the invariant of rows, locks, uncommitted versions and marks holds after every interleaving |
| DeclarationSafety.EachDeclarationIsDecidedOnce | backend/repositories/payment_declaration_repository.py:252-310 | at most one committed marking call per declaration, by its own wholesaler; an undecided row is as inserted and a decided one exactly what its mark wrote |
| DeclarationSafety.ColumnsFitTheStatus | backend/repositories/payment_declaration_repository.py:252-310 | confirmed rows have exactly the confirmation columns set, rejected rows exactly the rejection columns, pending rows none |
| DeclarationCalls.EveryColumnIsAccountedFor | backend/repositories/payment_declaration_repository.py:252-310 | column by column: a committed decision shows who decided, when, and the payment or the reason; the other decision's columns and those of an undecided row are empty |
| DeclarationCalls.NothingIsInvented | backend/repositories/payment_declaration_repository.py:207-310 | over every run, the inserted columns of a row are those of a `create`, and every committed decision was called for by its transaction with its values |
| DeclarationCalls.MarkTakesEffect | backend/repositories/payment_declaration_repository.py:252-310 | on a free pending row of the wholesaler a marking call and a commit set exactly its columns and add exactly its mark; on any other row the call changes nothing |
| DeclarationCalls.CreateTakesEffect | backend/repositories/payment_declaration_repository.py:207-250 | a `create` with a new key, a known method and a positive amount adds exactly its pending row at commit; otherwise it breaks the transaction |
| DeclarationCalls.CreateWaitsExactlyWhen | backend/models/payment_declaration.py:73-76 | a `create` waits if and only if another open transaction has inserted its id or key |
| DeclarationCalls.NobodyWaitsForTheDead | backend/repositories/payment_declaration_repository.py:159-181 | in every reachable state a waiting call goes on unless an open transaction holds its row |
| DeclarationSafety.DecisionsAreFinal | backend/repositories/payment_declaration_repository.py:252-310 | along any run decided rows never change again and inserted columns never change at all |
| DeclarationSafety.KeysStayUnique | backend/models/payment_declaration.py:73-76 | a retailer's idempotency key names at most one declaration |
| DeclarationSafety.TheLoserRaises | backend/repositories/payment_declaration_repository.py:278-310 | once a decision is committed, any other call, waiting or later, updates no row |
| DeclarationTable.Table.Create | backend/repositories/payment_declaration_repository.py:207-250 | the insertion, its uniqueness failures and its wait |
| DeclarationTable.Table.GetForUpdate | backend/repositories/payment_declaration_repository.py:159-181 | the locked row is the caller's and is the version returned |
| DeclarationTable.Table.MarkConfirmed | backend/repositories/payment_declaration_repository.py:252-280 | one pending row of this wholesaler becomes confirmed and is locked, or the call waits, or it raises and changes nothing |
| DeclarationTable.Table.MarkRejected | backend/repositories/payment_declaration_repository.py:282-310 | one pending row of this wholesaler becomes rejected and is locked, or the call waits, or it raises and changes nothing |
| DeclarationTable.Table.Wake | backend/repositories/payment_declaration_repository.py:261-280 | after a lock wait the guard is checked again on the row as it then is |

## Left out

- `get_db_session` and `create_tenant_schema`: they add no new behaviour of the pool.
- The engine's prepared-statement cache, the pool's size, timeouts and pre-ping: a checkout takes any idle connection, opens one, or fails.
- Advisory locks taken by anything but the refresh job.
- Row-count bookkeeping (`refreshed`, `skipped`), logging, metrics and printing everywhere.
- PoolSafety.RefreshIsExclusive: says nothing about releasing the lock; `LockRelease` does.
- Relationship loaders, aliases, subqueries and raw SQL: the hook sees only the statement's mapped classes.
- The UUID parser of the tenant filter is a parameter; where UUIDs are parsed (join intents) only hexadecimal digits and dashes are modelled, not braces, `urn:` or underscores.
- Windows path rules of `os.path.isabs`, symbolic links, letter case outside ASCII and white space outside ASCII.
- A repository with `core.quotePath` turned off, file names that are not UTF-8, and worktree removal.
- WorktreeScope.Execute: assumes that a listing that exits 0 prints exactly the names it lists, each on a line.
- Sorting of report lists: sets and first-appearance order are modelled, not alphabetical order.
- Report rendering, argument parsing and everything that depends on the shape of a command line, such as a path that starts with a dash.
- NestedJson.Loads: floating-point numbers, `NaN` and the infinities are not modelled; report payloads hold none.
- What `build_report` puts into the payload: the theorems of `ReportShas` hold for every payload.
- One clock for the limiter's clients and Redis; `X-Forwarded-For` handling.
- RateBounds.AtMostTwiceTheLimit: assumes that each INCR lands in the window its caller read; `LateIncrementRestarts` shows what happens otherwise.
- `get_cache_stats` and key patterns: `invalidate_cache` removes an arbitrary set of keys.
- JoinIntent.Verify: refuses JSON that is not a flat object of texts and integers without white space, and bytes outside ASCII, where `json.loads` may accept them; its theorems about acceptance are on payload texts the server signed.
- Lone surrogates in codes, and floating-point rounding of timestamps at far-away dates.
- RunPacket.ValidatePacket: packets and directives are JSON objects; texts of the messages are reduced to what they report.
- WorkerGate.WorkerMain: reading the mission's text, which may raise, and finding the opencode program are one input (`ready`).
- MissionBridge.AuditsAgree: the worker gate and the bridge ask git one after the other; the lines are taken to be the same.
- StatusListing.Listing: status columns other than git's, and other white space than the blank in them.
- Numeric range and rounding of amounts, column widths, foreign keys, deadlock detection and statement timeouts (a waiting transaction may be rolled back at any time). Ids are given by the scheduler.
- DeclarationTable.Table.Create: an INSERT that meets another transaction's uncommitted key is modelled as having no effect until it is tried again.
- Read-only queries of the declaration repository, its pagination and its joins.
- Order commands, ledger posting, receipt allocation and invitations are not part of this model.
