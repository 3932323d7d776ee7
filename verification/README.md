# FloatCTF control-plane models

This project models the stateful cores of FloatCTF in Dafny and proves what their design
promises: the task scheduler, the settings resolver and its cache, the distributed rate limiter,
the list query layer, the package digest, the frontend registry, the two judge workers and the
bounded retry at start-up.

| module | what it models |
|---|---|
| `SettingsResolver` | the recursive `{{KEY}}` template resolver with its cycle set |
| `SettingsCache` | the read-through Redis cache of the settings table, with TTL and delete on write |
| `RateLimiter` | the sliding-window script over a scored set, shared by nodes with skewed clocks |
| `Scheduler` | the `scheduled_tasks` rows and the live dispatches, through polls, retries, crashes and recovery |
| `ListFilters` | the filter language, its scanner and the second scanner for related tables |
| `Pagination` | the clamped page arithmetic |
| `PackageDigest` | the bytes that a package digest hashes |
| `FrontendPaths` | identifiers, versions, relative asset paths and URL paths of frontends |
| `FrontendRegistry` | the strict registry parser, registrations and the resolution of a frontend |
| `AwdWorker` | permits, leases, heartbeats and result delivery of the AWD judge |
| `AwdpJudge` | verdicts, posting and permits of the AWDP judge |
| `RetryBudget` | backoff and deadline of the bucket initialisation |
| `Truncation` | the truncation of script output in both judges |
| `Options`, `Documents` | the optional value and JSON values |

Code that mutates is a class or a method with loops, proved equal to a function; protocols are
state machines whose runs are arbitrary interleavings (`Run`, `Step`, `Next`), and the theorems
speak about every position of every run. Time is an integer, and the database, Redis, the file
system, child processes and the platform answer as they like.

`dafny verify dfyconfig.toml` checks everything.

## Findings

- A failed settings query is indistinguishable from an empty table; it is cached and served for a
  whole TTL (`SettingsCache.FailedQueryIsServed`). An answer was the table at the moment of its query
  exactly if that query succeeded or the table was empty (`SettingsCache.ReturnedWasTheTable`).
- The load/fill race of the settings cache is real (`SettingsCache.RaceExists`): a read that starts
  after a write and its successful invalidation misses the write if and only if it hits a map that
  was queried before the write, filled in after the invalidation, and is still the last fill
  (`SettingsCache.MissesWriteIffRaced`).
- With clocks up to δ off, the limiter guarantees its limit for windows of W − 2δ, and no longer
  (`RateLimiter.LimitHolds`, `RateLimiter.SkewBoundIsTight`).
- The package digest is independent of the order in which directories are listed exactly when, for
  every relative path, all files with that path in the first place that has it (`meta.toml`, else the
  first included directory with such a file) have the same bytes
  (`PackageDigest.OrderIndependentIffUnambiguous`). A backslash in a name breaks this
  (`PackageDigest.BackslashCollides`).
- `pull_loop` subtracts running jobs from permits that they already hold, so the AWDP judge claims
  only while fewer than half of its permits are running (`AwdpJudge.ClaimCapacity`). A claim made
  before the previous jobs have taken their permits counts those permits again: every claimed job is
  sure of a permit exactly if what is asked for and what is already spawned fit the free permits
  (`AwdpJudge.ClaimSafeIffGuarded`). If spawned jobs never get to run, any multiple of the permits
  is claimed (`AwdpJudge.OverclaimUnbounded`); if they run while the next claim is awaited, at most
  twice the permits, and that much is reached (`AwdpJudge.OverclaimBounded`,
  `AwdpJudge.OverclaimReached`).
- Both judges truncate script output at byte 4096 and panic if that lies within a character, for
  example after 4095 ASCII bytes and an accented letter (`AwdWorker.AccentedOutputDies`,
  `AwdpJudge.AccentedOutputDies`). Nothing is posted for such a task, and its heartbeats go on; they
  outlive the work on no other task (`AwdWorker.BeatsOnIffDead`, `AwdWorker.UncutOutputOrphans`,
  `AwdpJudge.ExecuteJob`).
- In the AWDP judge such a job also gives its permit back but stays counted in flight. The counter
  stays within the held permits exactly as long as the dead are no more than the jobs on their way in
  or out (`AwdpJudge.InflightCountsTheDead`). An idle worker can claim exactly if fewer jobs have died
  than it has permits (`AwdpJudge.IdleClaimsIffFewDied`); after that many it never claims again
  (`AwdpJudge.NoClaimAfterDeaths`), and every worker can come to that (`AwdpJudge.WorkerStops`).
- The posting loop of the AWDP judge ends on every HTTP answer, although its comment says that
  server errors are retried, and it reports a permanent failure after a retry that succeeded
  (`AwdpJudge.PostResult`). The model follows the code.
- The backoff equals initial·2^(k−1) capped at the maximum for every k exactly when the maximum is
  at most 65536 times the initial wait (`RetryBudget.DoublesIffCapWithinShift`).
- Where the 64-bit page sum wraps there is a single page and the clamp still picks it
  (`Pagination.ClampIsRight`).

## Model

| member | source | states |
|---|---|---|
| `SettingsResolver.RefEndIsQuoted` | apps/api/src/infrastructure/settings.rs:334-351 | a reference is recognised at a position exactly if the text there is `{{` key `}}` for a valid key, and that key is unique |
| `SettingsResolver.LexRoundTrip` | apps/api/src/infrastructure/settings.rs:327-374 | the tokens of any value, found without looking at the settings, print back to the value |
| `SettingsResolver.UndefinedStep` | apps/api/src/infrastructure/settings.rs:358-371 | stepping through an undefined reference one character at a time prints it verbatim: no reference can start inside it |
| `SettingsResolver.ReferenceAt` | apps/api/src/infrastructure/settings.rs:334-351 | the look-ahead loop finds exactly the reference that the lexer finds |
| `SettingsResolver.ResolveImpl` | apps/api/src/infrastructure/settings.rs:327-374 | terminates on every map, gives `seen` back unchanged, and outputs the rendering of the value's tokens, cyclic, undefined and malformed references verbatim |
| `SettingsResolver.ResolverExpands` | apps/api/src/infrastructure/settings.rs:351-367 | on every table, cyclic ones included, resolving is expanding each reference with its own setting taken off the table, where what is not on the table is printed as written |
| `SettingsResolver.ResolveValueWithMap` | apps/api/src/infrastructure/settings.rs:322-325 | the resolver started with nothing seen computes `Resolve` |
| `SettingsResolver.CycleCheckTransparent` | apps/api/src/infrastructure/settings.rs:352-364 | wherever substitution without a cycle check finishes, the cycle check changes nothing |
| `SettingsResolver.TerminatesIffNoLasso` | apps/api/src/infrastructure/settings.rs:315-321 | plain substitution of a value finishes exactly if no path of references from it runs into a cycle, and then within as many levels as there are settings |
| `SettingsResolver.ResolveIsPlain` | apps/api/src/infrastructure/settings.rs:322-374 | wherever plain substitution finishes, at whatever depth, the resolver gives the same text |
| `SettingsResolver.AcyclicIsPlain` | apps/api/src/infrastructure/settings.rs:315-374 | on an acyclic table the resolver is plain recursive substitution, for every value |
| `SettingsResolver.SeenIrrelevant` | apps/api/src/infrastructure/settings.rs:352-364 | marking a setting as seen changes nothing in the rendering of a value from which no references lead to it |
| `SettingsResolver.GetSettingIsReference` | apps/api/src/infrastructure/settings.rs:377-384 | reading a setting gives the text of a reference to it, whatever cycles there are elsewhere, unless references lead from its value back to itself |
| `SettingsCache.Stores.CacheGet` | apps/api/src/infrastructure/settings.rs:252-271 | a live entry is returned exactly if Redis answers; everything else is a miss |
| `SettingsCache.Stores.CacheSet` | apps/api/src/infrastructure/settings.rs:274-287 | the loaded map is returned and, if Redis accepts it, cached for the TTL |
| `SettingsCache.Stores.LoadSettingsMap` | apps/api/src/infrastructure/settings.rs:234-249 | an uninterrupted read: the cached map, or the query result and its cache entry; without a Redis client, the query result |
| `SettingsCache.Stores.UpsertSetting` | apps/api/src/infrastructure/settings.rs:418-436 | one row is written, then the key deleted if Redis answers; a failed write changes neither |
| `SettingsCache.TableIsLastWrites` | apps/api/src/infrastructure/settings.rs:418-431 | in every run each key of the table has the value last written to it, and a key never written its first value |
| `SettingsCache.CacheProvenance` | apps/api/src/infrastructure/settings.rs:234-303 | in every run the cached map comes from the last successful fill, and is what its reader last queried, at most the gap before |
| `SettingsCache.BoundedStaleness` | apps/api/src/infrastructure/settings.rs:232-303 | in every interleaving each returned map is what its source query found, in the last 60 + gap seconds |
| `SettingsCache.ReturnedWasTheTable` | apps/api/src/infrastructure/settings.rs:232-303 | a returned map was the table at the moment of its source query, in the last 60 + gap seconds, if and only if that query succeeded or the table was empty |
| `SettingsCache.SourceUnique` | apps/api/src/infrastructure/settings.rs:234-303 | every answer has exactly one source query |
| `SettingsCache.WriteSeenAfterTtl` | apps/api/src/infrastructure/settings.rs:289-303 | even if no invalidation succeeds, every answer later than 60 + gap seconds after a write comes from a query after it |
| `SettingsCache.MissesWriteIffRaced` | apps/api/src/infrastructure/settings.rs:418-436 | a read, by hit or fill, that starts after a write and its successful invalidation returns what was queried before the write if and only if it hits the last fill of a reader that queried before the write and filled after the invalidation; otherwise, if its query succeeded, it holds the last value written to that key before the query |
| `SettingsCache.RaceExists` | apps/api/src/infrastructure/settings.rs:234-303 | a run in which a hit after write and invalidation returns the old value |
| `SettingsCache.FailedQueryIsServed` | apps/api/src/infrastructure/settings.rs:246-249 | for every table and every delay up to the TTL, a run in which a failed query is served from the cache as the empty map |
| `RateLimiter.SortedSet.HitWindow` | apps/api/src/infrastructure/ratelimit.rs:94-133 | prune, count, add and expire on the shared set, equal to the one-step function `Hit` |
| `RateLimiter.Survives` | apps/api/src/infrastructure/ratelimit.rs:101-107 | the entry of an accepted call is neither pruned nor expired for W − 2δ of real time |
| `RateLimiter.EntryProvenance` | apps/api/src/infrastructure/ratelimit.rs:101-107 | every entry of the set was put there by an earlier accepted call with that stamp |
| `RateLimiter.LimitHolds` | apps/api/src/infrastructure/ratelimit.rs:86-134 | for stamps within δ of the script's run, no real-time window (x, x + W − 2δ] holds more than the limit of accepted calls, expiry and pruning included |
| `RateLimiter.SkewBoundIsTight` | apps/api/src/infrastructure/ratelimit.rs:86-134 | for every W, δ and limit a run in which a window one unit longer holds one accepted call more than the limit |
| `RateLimiter.RefinesHistory` | apps/api/src/infrastructure/ratelimit.rs:94-133 | with one clock a call is accepted exactly if fewer than its limit were accepted in (now − W, now] |
| `RateLimiter.ExpiryIrrelevant` | apps/api/src/infrastructure/ratelimit.rs:107 | two runs of the same calls that differ in when the key expires make the same decisions |
| `RateLimiter.BurstAcceptsExactly` | apps/api/src/infrastructure/ratelimit.rs:94-133 | on an empty key, within one window, exactly the first `limit` calls are accepted |
| `RateLimiter.BurstCount` | apps/api/src/infrastructure/ratelimit.rs:94-133 | n calls within one window on an empty key give min(n, limit) acceptances |
| `Scheduler.TaskScheduler.SpawnAll` | apps/api/src/scheduler/engine.rs:124-129 | one dispatch per returned row, each with its own copy of the row |
| `Scheduler.TaskScheduler.FetchAndRun` | apps/api/src/scheduler/engine.rs:96-132 | the picked rows, the oldest due ones that are not locked, up to 20, become running and locked, and a dispatch is spawned for each; nothing else changes |
| `Scheduler.TaskScheduler.EndOfSleep` | apps/api/src/scheduler/engine.rs:142-171 | after the sleep the handler starts, or the task is settled as successful if its deadline has passed |
| `Scheduler.TaskScheduler.MarkDone` | apps/api/src/scheduler/engine.rs:212-332 | the column updates of every completion branch, and no change to the row when the update fails |
| `Scheduler.TaskScheduler.RecoverRows` | apps/api/src/scheduler/engine.rs:334-370 | running rows become pending, and failed seeded enabled cron rows with a next tick are re-queued |
| `Scheduler.TaskScheduler.RecoverTasks` | apps/api/src/scheduler/engine.rs:334-384 | recovered rows, and one dispatch per enabled start-up task |
| `Scheduler.TaskScheduler.InitAndRecover` | apps/api/src/scheduler/engine.rs:334-388 | the recovery, and then a first poll |
| `Scheduler.InvRun` | apps/api/src/scheduler/engine.rs:96-388 | in every reachable state each live dispatch agrees with its row, which is running, and once and cron tasks have at most one |
| `Scheduler.OneDispatchPerTask` | apps/api/src/scheduler/engine.rs:96-132 | at any moment a once or cron task has at most one live dispatch, and is running while it has one |
| `Scheduler.RunningUntilSettled` | apps/api/src/scheduler/engine.rs:100-132 | from its claim on a task stays running until it is settled or the process crashes |
| `Scheduler.ClaimedAgainOnlyAfterDone` | apps/api/src/scheduler/engine.rs:96-132 | between two claims of a once or cron task without a crash, the first claim's own dispatch was settled |
| `Scheduler.SettledStatus` | apps/api/src/scheduler/engine.rs:212-332 | a completion ends its dispatch, touches no other row, and changes its row only if the update succeeds; then retry count, status and due time of every branch are as promised, and the task is running only if it is a successful cron task without an expression |
| `Scheduler.ClaimTakes` | apps/api/src/scheduler/engine.rs:96-132 | a poll takes at most 20 enabled pending rows due within five seconds, sets status and lock and nothing else, spawns one dispatch each, and leaves all other rows alone |
| `Scheduler.DueDispatchGoesOn` | apps/api/src/scheduler/engine.rs:142-171 | a dispatch whose row is due can start its handler, or be skipped if its deadline has passed |
| `Scheduler.RecoveryRepairs` | apps/api/src/scheduler/engine.rs:334-388 | after recovery nothing is running and interrupted tasks are pending as they were; a failed row becomes pending, at the next tick and with no attempts, if and only if it is a seeded enabled cron task with an expression and a next tick; exactly the enabled start-up tasks have a dispatch |
| `Scheduler.NeverEarly` | apps/api/src/scheduler/engine.rs:142-159 | in every run no handler of a once or cron task starts before its row is due, although rows are claimed early |
| `Scheduler.NoStartAfterDeadline` | apps/api/src/scheduler/engine.rs:161-168 | in every run no handler starts after the deadline its task had at the beginning, through retries, re-queueing, crashes and recovery |
| `Scheduler.SkipEndsTask` | apps/api/src/scheduler/engine.rs:161-168 | a dispatch is skipped only after its deadline, and leaves its task completed or failed, except a cron task without an expression |
| `Scheduler.AccountedRun` | apps/api/src/scheduler/engine.rs:212-240 | in every run, from any moment and any starting attempt count, an open once task has as many new attempts as failures, and its handler starts are covered by failures, crashes and the run under way |
| `Scheduler.RetriesBounded` | apps/api/src/scheduler/engine.rs:222-240 | from any moment on a once task that began with a attempts starts at most max(1, max_attempts − a) handlers plus one per crash since then, is settled at most that often in all, and then is completed or failed |
| `Scheduler.RetriesPerLifetime` | apps/api/src/scheduler/engine.rs:222-240 | between a recovery and the next crash a once task starts at most max(1, max_attempts − a) handlers |
| `Scheduler.EndedStaysEnded` | apps/api/src/scheduler/engine.rs:311-314 | a completed or failed once task never changes again |
| `Scheduler.DueAfterBackoffs` | apps/api/src/scheduler/engine.rs:228-232 | after k failures an open once task that began with a attempts is due no earlier than 15·k·(k+1) + 30·a·k seconds after the first one |
| `Scheduler.RetriesSpaced` | apps/api/src/scheduler/engine.rs:100-159 | a handler start that follows q earlier ones, crashes aside, has k ≥ q failures behind it and happens at least 15·k·(k+1) + 30·a·k seconds after the first, although rows are claimed five seconds early |
| `Scheduler.QueueShrinks` | apps/api/src/scheduler/engine.rs:106-112 | while an overdue row is passed over, no row overtakes it and every poll that no lock hinders takes 20 older ones |
| `Scheduler.ClaimedWithinPolls` | apps/api/src/scheduler/engine.rs:106-112 | in any interleaving without a crash, a row that is overdue behind n older ones is claimed by one of the next n/20 + 1 unhindered polls |
| `ListFilters.ScanValue` | apps/api/src/api/sea_orm_utils.rs:51-60 | the inner loop joins the words up to the next operator |
| `ListFilters.JoinedIsSpaced` | apps/api/src/api/sea_orm_utils.rs:53-60 | the joined value is what follows the colon and the further words, written with single spaces |
| `ListFilters.WordsAnySpace` | apps/api/src/api/sea_orm_utils.rs:28 | any white space ends a word and is passed over |
| `ListFilters.ScanClause` | apps/api/src/api/sea_orm_utils.rs:51-64 | a keyed token yields the condition of the first mapping with its key, if there is one |
| `ListFilters.ScanStep` | apps/api/src/api/sea_orm_utils.rs:33-70 | what one turn of the cursor takes from the clauses that are defined by splitting at bars and ampersands |
| `ListFilters.BuildCondition` | apps/api/src/api/sea_orm_utils.rs:29-86 | the one-pass scanner builds the OR of ANDs of the clauses obtained by splitting |
| `ListFilters.BuildFilterCondition` | apps/api/src/api/sea_orm_utils.rs:23-87 | the same from the filter text; no filter gives no condition |
| `ListFilters.FilterMeaning` | apps/api/src/api/sea_orm_utils.rs:22-87 | the condition holds on a row exactly if some group with a known key has all its known clauses true; it is absent exactly if no clause has a known key |
| `ListFilters.CollectConditions` | apps/api/src/api/sea_orm_utils.rs:222-251 | the cross-table loop collects exactly the known clauses of the main scanner, in order |
| `ListFilters.ResolveCrossFilters` | apps/api/src/api/sea_orm_utils.rs:206-260 | the cross-table condition is their conjunction, absent for an empty filter or no known key |
| `ListFilters.ScannersAgree` | apps/api/src/api/sea_orm_utils.rs:33-77 | both conditions are present or neither; the cross-table one implies the main one and is equivalent to it without a bar token |
| `ListFilters.FilterRoundTrip` | apps/api/src/api/sea_orm_utils.rs:33-77 | the tokens printed from an OR of ANDs have the same clauses in the same groups |
| `ListFilters.TextRoundTrip` | apps/api/src/api/sea_orm_utils.rs:28-77 | the same through the filter text and its split at white space |
| `Pagination.ClampIsRight` | apps/api/src/api/sea_orm_utils.rs:107-117 | the 64-bit index is that of the requested page clamped to 1..ceil(total/limit), wrap-around included |
| `Pagination.PageIsSlice` | apps/api/src/api/sea_orm_utils.rs:103-122 | a page is the slice of the ordered result at its clamped index |
| `Pagination.PagesPartition` | apps/api/src/api/sea_orm_utils.rs:103-122 | pages 1 to ceil(total/limit) concatenate to exactly the ordered result |
| `Pagination.PagesClamped` | apps/api/src/api/sea_orm_utils.rs:103-117 | a limit of 0 gives nothing, page 0 is page 1, pages past the end are the last, and no page of a non-empty result is empty |
| `PackageDigest.CollectTree` | apps/api/src/infrastructure/package.rs:377-409 | appends the files below a directory in listing order, and fails exactly if there is a symlink |
| `PackageDigest.DedupByPath` | apps/api/src/infrastructure/package.rs:362 | of neighbours with equal paths the first stays |
| `PackageDigest.Feed` | apps/api/src/infrastructure/package.rs:365-373 | the five updates append path, NUL, kind, 64-bit length and contents |
| `PackageDigest.ComputePackageDigest` | apps/api/src/infrastructure/package.rs:342-375 | the hasher is fed the canonical encoding of the collected files, or there is an error exactly if one of the trees holds a symlink |
| `PackageDigest.FilesAreCovered` | apps/api/src/infrastructure/package.rs:348-358 | the collected files are exactly `meta.toml` and the files below included directories, whatever the listing order, repetition or overlap |
| `PackageDigest.RelMeans` | apps/api/src/infrastructure/package.rs:398-404 | a relative path is its names with slashes between them, and slashes for backslashes |
| `PackageDigest.CanonicalFacts` | apps/api/src/infrastructure/package.rs:360-362 | sorting and removing duplicates gives a strictly increasing list with every path of the input |
| `PackageDigest.LessMeans` | apps/api/src/infrastructure/package.rs:361 | paths are ordered byte by byte, a prefix first |
| `PackageDigest.IncreasingUnique` | apps/api/src/infrastructure/package.rs:360-362 | such a list is determined by its elements |
| `PackageDigest.DecodeRoundTrip` | apps/api/src/infrastructure/package.rs:364-373 | the bytes fed to the hash are read back, file by file, by a decoder of path, NUL, kind, little-endian length and contents |
| `PackageDigest.EncodeAllInjective` | apps/api/src/infrastructure/package.rs:364-373 | the byte string of a list of files can be read in one way only |
| `PackageDigest.PreimageCanonical` | apps/api/src/infrastructure/package.rs:360-373 | two consistent file lists give the same bytes exactly if they hold the same files |
| `PackageDigest.DigestCanonical` | apps/api/src/infrastructure/package.rs:342-409 | two packages feed the hash the same bytes if and only if their covered path-to-bytes maps are equal |
| `PackageDigest.DistinctPathsConsistent` | apps/api/src/infrastructure/package.rs:398-405 | paths that stay distinct after normalisation make a package consistent |
| `PackageDigest.CanonicalFirst` | apps/api/src/infrastructure/package.rs:360-362 | sorting and removing duplicates keeps, of every path, exactly the file that was collected first |
| `PackageDigest.PreimageIffFirst` | apps/api/src/infrastructure/package.rs:360-373 | any two collections give the same bytes if and only if they have the same first file of every path |
| `PackageDigest.RefusedIffLinked` | apps/api/src/infrastructure/package.rs:353-393 | a package is refused exactly if a symlink lies below one of its included directories |
| `PackageDigest.DigestUnambiguous` | apps/api/src/infrastructure/package.rs:342-409 | two unambiguous packages feed the hash the same bytes if and only if the same files are hashed |
| `PackageDigest.PutFirstRelists` | apps/api/src/infrastructure/package.rs:382-384 | listing the branch of a path first, in every directory on its way, is a listing of the same tree |
| `PackageDigest.OrderIndependentIffUnambiguous` | apps/api/src/infrastructure/package.rs:342-409 | every order in which the directories can be listed feeds the hash the same bytes if and only if, for every relative path, all files with it in the first group that has it have the same bytes |
| `PackageDigest.ConsistentUnambiguous` | apps/api/src/infrastructure/package.rs:360-373 | a package whose files agree wherever they share a relative path is unambiguous |
| `PackageDigest.BackslashCollides` | apps/api/src/infrastructure/package.rs:398-405 | a package and a relisting of it, with `src` included and a backslash in a name, that feed the hash different bytes |
| `FrontendPaths.SemverIsSegment` | packages/frontend-runtime/src/paths.ts:17-38 | a valid version starts with a digit and has no slash |
| `FrontendPaths.CheckAcceptsSafePaths` | packages/frontend-runtime/src/paths.ts:55-95 | a path passes the check exactly if it has 1 to 512 safe characters or slashes, no empty segment at any place, and no `.` or `..` segment |
| `FrontendPaths.FixedPointIffClean` | packages/frontend-runtime/src/paths.ts:45-54 | dot-segment removal (section 5.2.4 of RFC 3986) leaves a path alone exactly if it has no dot segment |
| `FrontendPaths.CleanJoin` | packages/frontend-runtime/src/paths.ts:97-111 | joining with a slash neither makes nor hides a dot segment |
| `FrontendPaths.JoinAssetBase` | packages/frontend-runtime/src/paths.ts:103-111 | base, id and version join to the rooted base followed by two segments, for every base, the empty one included |
| `FrontendPaths.JoinEntry` | packages/frontend-runtime/src/paths.ts:103-111 | an asset path joins to the asset base with one slash |
| `FrontendPaths.CompatibleIffNumeral` | packages/frontend-runtime/src/paths.ts:119-132 | a constraint fits a platform version text exactly if that text starts with a safe non-negative integer and the constraint is its numeral, white space aside |
| `FrontendPaths.ParsePrinted` | packages/frontend-runtime/src/paths.ts:127-132 | white space, the numeral of a major and whatever does not continue it are read as that major |
| `FrontendPaths.TrimMeans` | packages/frontend-runtime/src/paths.ts:119-122 | white space around a text is taken off, and nothing else |
| `FrontendRegistry.ParseVersionEntry` | packages/frontend-runtime/src/registry.ts:103-204 | returns the version an entry stands for if it can be read, and adds no error exactly if the entry is also free of unknown fields |
| `FrontendRegistry.ParseVersions` | packages/frontend-runtime/src/registry.ts:274-278 | all versions in any order, or at least one error |
| `FrontendRegistry.ParseFrontend` | packages/frontend-runtime/src/registry.ts:249-298 | a frontend without an error exactly if its id, fields, versions and current version are as required |
| `FrontendRegistry.ParseRegistry` | packages/frontend-runtime/src/registry.ts:211-316 | succeeds exactly on the acceptable documents, with the registry they stand for, whatever the order of keys; a failure has errors |
| `FrontendRegistry.VersionIff` | packages/frontend-runtime/src/registry.ts:103-204 | an entry is accepted as a version exactly if that is a good one and what the entry says, field by field, with no other field and only the styles optional |
| `FrontendRegistry.RegistryIff` | packages/frontend-runtime/src/registry.ts:206-316 | a document is accepted as a registry exactly if that is well formed and not empty, has the expected schema, and is what the document says, with no other field at any level |
| `FrontendRegistry.ReadWellFormed` | packages/frontend-runtime/src/registry.ts:206-316 | every parsed registry is well formed: current versions installed, keys and versions agree, paths safe |
| `FrontendRegistry.PrintRoundTrip` | packages/frontend-runtime/src/registry.ts:103-316 | a registry is what its printed document parses to exactly if it is well formed and not empty |
| `FrontendRegistry.InstalledAfter` | packages/frontend-runtime/src/registry.ts:335-379 | after any run of registrations, installed versions are unchanged and a new one is the first registered under its number |
| `FrontendRegistry.PointersStayInstalled` | packages/frontend-runtime/src/registry.ts:359-368 | any run of registrations keeps every current version installed and leaves schema and date as they were |
| `FrontendRegistry.WellFormedAfter` | packages/frontend-runtime/src/registry.ts:335-379 | any run of registrations of good entries keeps a registry well formed |
| `FrontendRegistry.BuiltRegistriesParse` | packages/frontend-runtime/src/registry.ts:318-379 | after any run of registrations of good entries from the empty registry, the printed document parses back to the registry unless it is still empty |
| `FrontendRegistry.PointerFollowsRequests` | packages/frontend-runtime/src/registry.ts:360-363 | a frontend is there exactly if it was or a registration was granted; its pointer is the last one asked for and granted, else the old one, else the first version of a new frontend |
| `FrontendRegistry.ProtectionStays` | packages/frontend-runtime/src/registry.ts:370-375 | a frontend keeps its protection until a granted registration says otherwise, and a new one starts unprotected |
| `FrontendRegistry.ResolveFrontend` | packages/frontend-runtime/src/registry.ts:420-491 | on any registry: found exactly if the id is safe, its current version is installed, both majors fit and all paths are safe |
| `FrontendRegistry.WellFormedResolves` | packages/frontend-runtime/src/registry.ts:420-491 | on a well-formed registry only an unsafe id, an uninstalled frontend or a major mismatch fails, and the current version is served from its own place below the base |
| `FrontendRegistry.ParsedResolves` | packages/frontend-runtime/src/registry.ts:411-491 | on a parsed registry only an unsafe id, an uninstalled frontend or a major mismatch fails, and each URL is base, id, version and path |
| `FrontendRegistry.UrlFixedIffBaseFixed` | packages/frontend-runtime/src/registry.ts:476-488 | a resolved URL survives dot-segment removal exactly if the configured base does |
| `FrontendRegistry.UrlsDistinct` | packages/frontend-runtime/src/registry.ts:476-488 | different assets have different URLs |
| `AwdWorker.DeliverResult` | crates/awd-judgeserver/src/worker.rs:485-566 | one body is posted one to four times, up to the first decisive reply, which decides the result; pauses of 1, 2 and 4 seconds |
| `AwdWorker.HeartbeatLoop` | crates/awd-judgeserver/src/worker.rs:436-477 | the flag is set exactly if a stale reply comes before any not-found reply among those handled; errors are retried |
| `AwdWorker.ExecuteSingleTask` | crates/awd-judgeserver/src/worker.rs:258-430 | nothing is posted exactly if the child was spawned and a stale heartbeat was handled before the check, or its output is cut inside a character; else one body with the outcome of the run. The heartbeats are ended exactly if the script was written and the task survives |
| `AwdWorker.UncutOutputOrphans` | crates/awd-judgeserver/src/outcome.rs:48-54 | a task that dies over its output is never reported, and keeps beating until the platform says stale or not found |
| `AwdWorker.BeatsOnIffDead` | crates/awd-judgeserver/src/worker.rs:402-403 | in every run the heartbeats of a task are over once it delivers or is done; where the platform did not end them, they go on beyond the work exactly for a task that died over its output |
| `AwdWorker.AccentedOutputDies` | crates/awd-judgeserver/src/outcome.rs:48-54 | exit code 0 with 4095 ASCII bytes and an accented letter on standard output kills the task, whatever the heartbeats |
| `AwdWorker.PermitsConserved` | crates/awd-judgeserver/src/worker.rs:195-250 | in every interleaving free permits plus running tasks equal the maximum |
| `AwdWorker.AcquireNeverWaits` | crates/awd-judgeserver/src/worker.rs:204-238 | a claim asks for the free permits, and if the platform returns no more than asked, a permit is free for every claimed task |
| `AwdWorker.WaitHasRunningTask` | crates/awd-judgeserver/src/worker.rs:226-238 | whatever the platform returns, a wait for a permit has a running task to wait for |
| `AwdWorker.ClaimedAreStarted` | crates/awd-judgeserver/src/worker.rs:216-238 | every claimed task is started exactly once, in order |
| `AwdWorker.AtMostFourIdenticalPosts` | crates/awd-judgeserver/src/worker.rs:481-566 | in every run a task is posted at most four times, always with its lease, attempt, result id and one outcome |
| `AwdWorker.PostsUntilFinal` | crates/awd-judgeserver/src/worker.rs:524-556 | a post adds one body and is the last exactly if the reply is accepted, idempotent, stale or not found, or it was the fourth |
| `AwdWorker.OverIsFinal` | crates/awd-judgeserver/src/worker.rs:429-430 | nothing is posted for a task that is done or dead |
| `AwdWorker.OutcomeOf` | crates/awd-judgeserver/src/outcome.rs:19-25 | up exactly for exit code 0, down exactly for 1, timed out exactly for a timeout |
| `AwdWorker.OutcomeProvenance` | crates/awd-judgeserver/src/worker.rs:362-400 | in every run a posted outcome is how the task's child ended, or a worker error where the script could not be written or the child not started |
| `AwdWorker.StaleMeansSilence` | crates/awd-judgeserver/src/worker.rs:402-413 | once a stale heartbeat was handled before the ownership check of a spawned task, nothing is ever posted for it |
| `AwdpJudge.ParseBatchResults` | crates/awdp-judgeserver/src/main.rs:175-211 | succeeds exactly if the output holds an object, alone or in an array, and then gives at least one row |
| `AwdpJudge.RowRoundTrip` | crates/awdp-judgeserver/src/main.rs:191-205 | from any object the address is the text of `gamebox_ip` where that key is present, else of `ip`; only a true `success` succeeds; an `error` counts if it is text |
| `AwdpJudge.RowsByPosition` | crates/awdp-judgeserver/src/main.rs:189-206 | row n is read from the n-th object of the output |
| `AwdpJudge.HitRow` | crates/awdp-judgeserver/src/main.rs:296-300 | none exactly if there are no rows; else the deciding row, the first that fits, or the first of all if none fits |
| `AwdpJudge.HealthcheckAll` | crates/awdp-judgeserver/src/main.rs:591-683 | passes exactly if there is a check and every usable one is answered within three tries |
| `AwdpJudge.RunJob` | crates/awdp-judgeserver/src/main.rs:444-579 | the fate of a job, a status or death over the output of a script it reached, is justified by the answers of probes and scripts; the judge's and the exploit's row are there exactly where they were reached, and an official job is patched or vulnerable only by a row of its exploit after a passed judge |
| `AwdpJudge.OneVerdict` | crates/awdp-judgeserver/src/main.rs:444-579 | the answers justify exactly one fate |
| `AwdpJudge.ExploitOnlyAfterJudge` | crates/awdp-judgeserver/src/main.rs:500-513 | until the judge has passed, another exploit would change nothing |
| `AwdpJudge.ScriptFaultsSpareThePlayer` | crates/awdp-judgeserver/src/main.rs:473-540 | a reached script that did not start, timed out or was unreadable gives a platform error, or no status at all if its output is cut in a character |
| `AwdpJudge.AccentedOutputDies` | crates/awdp-judgeserver/src/main.rs:482 | a judge script that prints 4095 ASCII bytes and an accented letter leaves its job without a status, whatever the output says |
| `AwdpJudge.PostResult` | crates/awdp-judgeserver/src/main.rs:385-440 | one status posted one to four times, again only after network errors; the alarm is raised unless the first try succeeds |
| `AwdpJudge.ExecuteJob` | crates/awdp-judgeserver/src/main.rs:305-441 | a job that dies posts nothing, is not counted out and leaves its heartbeats on; any other job posts its status one to four times and is counted out |
| `AwdpJudge.InflightCountsTheDead` | crates/awdp-judgeserver/src/main.rs:305-307 | in every interleaving permits are conserved and the in-flight counter counts running and dead jobs; it stays within the held permits exactly as long as the dead are no more than the jobs on their way in or out |
| `AwdpJudge.ClaimCapacity` | crates/awdp-judgeserver/src/main.rs:688-697 | a claim asks for the free permits less the counter, up to the batch size, and only while running jobs, twice, and dead ones are fewer than the permits |
| `AwdpJudge.IdleClaimsIffFewDied` | crates/awdp-judgeserver/src/main.rs:690-695 | with nothing outstanding the worker can claim exactly if fewer jobs have died than it has permits |
| `AwdpJudge.NoClaimAfterDeaths` | crates/awdp-judgeserver/src/main.rs:432-440 | once as many jobs have died as there are permits, no run claims again |
| `AwdpJudge.WorkerStops` | crates/awdp-judgeserver/src/main.rs:432-440 | for every number of permits a run of an honest platform that ends with all permits free, nothing outstanding and no claim possible |
| `AwdpJudge.ClaimSafeIffGuarded` | crates/awdp-judgeserver/src/main.rs:688-711 | every honest continuation of a claim finds a permit for every claimed job if and only if what is asked for and what is already spawned fit the free permits |
| `AwdpJudge.GuardedNeverWaits` | crates/awdp-judgeserver/src/main.rs:688-721 | in every honest run whose claims are so guarded, every claimed job finds a permit at every moment |
| `AwdpJudge.UnguardedOverclaims` | crates/awdp-judgeserver/src/main.rs:688-721 | every honest run that comes to an unguarded claim extends to one in which a claimed job has no permit |
| `AwdpJudge.OverclaimUnbounded` | crates/awdp-judgeserver/src/main.rs:706-711 | if spawned jobs do not get to run between claims, any multiple of the permits is claimed |
| `AwdpJudge.OverclaimBounded` | crates/awdp-judgeserver/src/main.rs:688-721 | if they reach the semaphore while the next claim is awaited, at most twice the permits are outstanding |
| `AwdpJudge.OverclaimReached` | crates/awdp-judgeserver/src/main.rs:706-711 | twice the permits are reached in such a run |
| `RetryBudget.BackoffMeans` | apps/api/src/infrastructure/storage.rs:92-101 | the backoff doubles up to the cap for 17 attempts and then stays |
| `RetryBudget.BackoffNonDecreasing` | apps/api/src/infrastructure/storage.rs:92-101 | later failures never wait less |
| `RetryBudget.DoublesIffCapWithinShift` | apps/api/src/infrastructure/storage.rs:92-101 | the backoff is the capped doubling for every attempt exactly if the cap is at most 65536 times the initial wait, or that is zero |
| `RetryBudget.EnsureBuckets` | apps/api/src/infrastructure/storage.rs:120-179 | for every policy and every sequence of answers, the attempts made are exactly those due, each at its time, and the last answer decides |
| `RetryBudget.AttemptsBounded` | apps/api/src/infrastructure/storage.rs:120-179 | at most max(1, max_attempts) attempts, every later one strictly before the deadline |
| `RetryBudget.MadeIffWithinBudget` | apps/api/src/infrastructure/storage.rs:154-166 | an attempt is made exactly if it is allowed, all before it failed transiently, and their costs, jitter and backoffs fit the deadline |
| `RetryBudget.DefaultMakesAllAttempts` | apps/api/src/infrastructure/storage.rs:76-86 | under the default policy and transient failures the twelfth attempt is made exactly if attempts and jitter took less than 19 seconds |

## Left out

- SeaORM entities, routes, configuration, logging and error texts: no algorithm; errors are enumerated kinds.
- The HTTP, Redis, S3 and Docker clients and process spawning: only their possible answers are modelled.
- SHA-256, the cron crate and JSON text: the digest is modelled up to the hash's input, cron's next tick is some time after now or nothing, and JSON arrives parsed.
- `apps/api/src/infrastructure/storage.rs` error classification, permission tables and semver comparison: finite tables that would add easy members only.
- `crates/floatctf-helper`: mostly one-branch policy checks over an external daemon.
- Scheduler: seeding of tasks, admin edits, several control planes, and the columns that record times and error texts. Which rows are locked while a poll picks is left open.
- Scheduler.ClaimedWithinPolls: attempt counts are taken to be non-negative, as the column is a count that starts at 0.
- RateLimiter: the range of 64-bit milliseconds and the precision of Redis scores above 2^53 are not modelled, and neither are calls that fail before the script runs.
- Pagination: rows that come or go between the count and the page query are not modelled; both see one list.
- Pagination: an overflow check that panics in debug builds is not modelled; the arithmetic wraps as in release builds.
- PackageDigest: a symlinked included directory or `meta.toml`, file names that are not valid UTF-8, read errors, and changes of the files during the walk are not modelled. The sort is a function with the standard library's stable order.
- FrontendRegistry: records are maps of own keys, so names that live on `Object.prototype` are outside the model. Strings are sequences of characters, so lengths count code points; accepted ids and paths are ASCII, where both counts agree. Error messages are kinds with a place, and the order of errors is that of the keys, which is any order.
- AwdWorker.ExecuteSingleTask: runs one task with the heartbeats handled before the ownership check given in advance; the interleavings are in the state machine, where no heartbeat is handled after the abort. The truncated texts, script arguments and environment are not modelled.
- AwdpJudge.RunJob: details and output texts other than the rows are not modelled. Of the heartbeats of this judge only whether they are ended is modelled. Standard output and error are taken as decoded text.
- RetryBudget.EnsureBuckets: sleeps are exact and the clock is read once per attempt; the sum of backoff and jitter is unbounded, where the program would panic above 2^64 seconds.
