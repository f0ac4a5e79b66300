# Verified models of the backend's concurrent protocols and balancing folds

Dafny models of the parts of the backend whose correctness is not visible in any single function: protocols that
several workers run against a shared store, and folds whose totals must balance. Every file is one module, and
`dafny verify dfyconfig.toml` checks them all.

| area | modules |
|---|---|
| Single-flight cache | `CacheSupport`, `CacheSingleflight`, `TokenLock`, `SingleFlight`, `SingleFlightLeaders`, `SingleFlightValues`, `SingleFlightFreshness`, `SingleFlightLocks`, `SingleFlightEndings`, `TenantCache`, `SoloCalls` |
| Analysis jobs | `AnalysisJobs` |
| Chess catalog | `Text`, `Fingerprint`, `CleanText`, `GameDedupe`, `GameDedupeRuns`, `ProviderSync`, `FamousCatalog`, `FamousNames`, `FamousService`, `CatalogPaging`, `ContentOpportunity`, `ContentScores` |
| Workers and HTTP | `MapConcurrent`, `HttpRetry`, `TaskLedger` |
| Analytics | `TemplateStats`, `OverviewCharts` |
| Approvals | `Approvals` |
| Shared | `Wrappers`, `Totals` |

Two styles are used side by side. A protocol that several tasks run at once is a state machine: `Step`, `Enabled`,
`Next`, and lemmas about every legal run. The same operations, run without interruption, are methods of a class
whose contracts give the whole new state, and where both exist a run of one task alone is proved to do what the
method does. A run of steps is any list that `Legal` accepts, so a result about
`Exec(init, steps)` is a result about every interleaving.

What a Redis call, an HTTP server, a factory, the engine or a provider answers is a parameter. Redis calls may
raise before or after they took effect; keys may vanish and time may pass at any step. Unique indexes are guards: a
violating write fails and changes nothing.

## Findings

Some properties one might expect do not hold of the code. Each is stated with the exact condition under which it
does, and with an input that breaks it.

- A walk over search pages is complete exactly when the order the cursor sees (whole seconds, then id) agrees with
  the order of the query (microseconds, then id): `CatalogPaging.WalkReturnsEverything`. Of two games stored within
  one second, the later one with the smaller id, the earlier one is lost: `CatalogPaging.SubSecondRowIsSkipped`.
- A second curation pass is a no-op when the game settles and, without repeated ids in the catalog, only then:
  `FamousCatalog.SecondPassIsNoop`. An exact-fingerprint winner keeps a flat 100, so the year it fills in can let
  another entry overtake it: `FamousCatalog.FingerprintWinnerCanBeOvertaken`. Settling is a condition on the year,
  event and points of the game and its rivals: `FamousCatalog.SettlesInFields`.
- An error-free sync moves the high-water mark past games its batch had no room for; it persists its whole window
  exactly when the window fits the batch: `ProviderSync.CleanRunPersistsWindow`, with two games and room for one in
  `ProviderSync.BatchLosesAGame`.
- The analysis cap of a sync bounds new jobs. Reclaimed failed jobs are dispatched without being counted, so the
  dispatches are the new jobs alone exactly when the cap was reached before every reclaimed job
  (`ProviderSync.DispatchesAreNewJobs`), and stay within the cap exactly when no reclaimed job is met or all fit
  beside the new ones (`ProviderSync.CapBoundsDispatches`). A reclaimed job and a new one under a cap of one are two
  dispatches: `ProviderSync.ReclaimPassesTheCap`.
- The first revision that is re-sent turns a publish approval into an asset approval, and the platforms and
  schedule of its payload are no longer used: `Approvals.RevisionForgetsThePlan`, with one revision in
  `Approvals.OneRevisionForgetsThePlan`.
- `run_async_task` records a failure when its final commit fails. `run_detached_async_task` leaves its row running
  exactly when the commit that records the end is lost: `TaskLedger.Session.RunDetachedAsyncTask`, with one
  operation under both in `TaskLedger.LostSuccessRecord`.
- A fingerprint payload tells FEN, moves text and result apart, for inputs that are stripped and lower-cased as the
  code does, exactly when it can be divided in one way only, for which it is enough that the parts hold no bar
  (`Fingerprint.YieldedTellExactly`). The moves text tells the moves only up to the blanks inside them
  (`Fingerprint.GameFingerprintTellsPieces`). Both collide: `Fingerprint.BlanksAndBarsCollide`. Chess text has
  neither bars nor blanks.
- Deleting keys of an owner deletes lock keys too. Exclusion under a key holds in every run that deletes no lock of
  that key (`SingleFlightLocks.LockedSectionsAreExclusive`); deleting the lock of a fresh holder admits a second one
  at once (`SingleFlightLocks.DroppedLockAdmitsSecondHolder`), as in the run of
  `SingleFlightLocks.DropBreaksExclusion`.

## Model

| member | source | states |
|---|---|---|
| CacheSupport.WrapRoundTrip | backend/core/cache_support.py:48-65 | A stored value comes back from the wrapper exactly when it was wrapped, or is no dictionary with the negative marker set or with both wrapper keys. |
| CacheSupport.WrappersRead | backend/core/cache_support.py:57-61 | Any wrapper reads as its data, stale once the clock is past its soft expiry, or raises when its meta is no dictionary or its soft expiry no number. |
| CacheSupport.ReadAfterWrite | backend/core/tenant_cache.py:95-157 | A value written at w reads back unchanged before w + soft + swr and is a miss afterwards; it is stale exactly when a stale window exists and the soft lifetime is over. |
| CacheSupport.EffectiveTtl | backend/core/cache_support.py:40-45 | The lifetime lies between max(ttl, 1) and max(ttl + jitter, 1), a zero jitter meaning the configured default, and grows by the very draw. |
| CacheSingleflight.ReleaseSparesOthers | backend/core/cache_singleflight.py:13-39 | The release script frees exactly the live lock its own token holds, and leaves every other lock as it was. |
| CacheSingleflight.LockLastsItsTtl | backend/core/cache_singleflight.py:25-32 | A granted lock is held by its token at t exactly while t is less than max(ttl, 1) milliseconds after the grant; a lock somebody holds, and every other lock, stays as it is. |
| CacheSingleflight.WaitForFill | backend/core/cache_singleflight.py:42-47 | The jittered back-off of max(attempts, 1) rounds lasts between a half and one and a half of the plain geometric sum capped at sixteen units, and less than a lock's default lifetime for up to 28 rounds. |
| CacheSingleflight.LongestWaitFitsTheLock | backend/core/cache_singleflight.py:42-47 | The longest wait of a number of rounds ends within the default 15 s lifetime of a lock exactly for up to 28 rounds; the source has eight. |
| TokenLock.NextInv | backend/core/cache_singleflight.py:13-39 | Every step keeps: tokens are unique and drawn already, and a holder within its lifetime still has its own lock in Redis. |
| TokenLock.TimedExclusion | backend/workers/task_lock.py:12-34 | After any run, of two simultaneous holders of one lock one took it `ttl` milliseconds ago or more, and one millisecond at least. |
| TokenLock.GrantExcludes | backend/workers/task_lock.py:12-34 | From the moment an attempt got a lock, for `ttl` milliseconds or until it lets go, nobody else gets it, whatever happens in between. |
| TokenLock.GrantedExactlyWhenFree | backend/core/cache_singleflight.py:25-32 | An attempt gets the lock exactly when it is free and the answer arrives; the lock then expires max(ttl, 1) milliseconds later. |
| TokenLock.LateReleaseSparesNextHolder | backend/workers/task_lock.py:12-34 | However late a holder releases, the lock of every holder that took its own less than `ttl` milliseconds ago stays in place, token and expiry. |
| SingleFlightLeaders.OneLeaderPerEntry | backend/core/tenant_cache.py:231-258 | In every reachable state `_inflight` has an entry for a key exactly when one task of that process leads it, and never two. |
| SingleFlightLeaders.JoinersHaveALeader | backend/core/tenant_cache.py:231-258 | A joiner's future is resolved, or its live leader of the same key and process can take a step whatever Redis does. |
| SingleFlightLeaders.NoDeadlock | backend/core/tenant_cache.py:211-258 | While any call is unfinished some call can take a step. |
| SingleFlightLeaders.CallsAreBounded | backend/core/tenant_cache.py:211-297 | Under every schedule and failure a call takes at most ten steps and one for each legacy key. |
| SingleFlightLeaders.StepLowersRank | backend/core/tenant_cache.py:211-297 | Every step of a call brings it strictly nearer its end. |
| SingleFlightValues.ResultsAgreeWithFactories | backend/core/tenant_cache.py:211-297 | In every interleaving a call that ends with a value got one that a factory produced for its key or for a key reached through declared legacy keys; a call that ends with None or a factory's exception ran that factory itself or joined the leader that did; a cache error needs a caller that asked for CLOSED. |
| SingleFlightValues.LookIsSourced | backend/core/tenant_cache.py:95-124 | Whatever a read hands over was sourced, when the store was. |
| SingleFlightValues.WriteIsOk | backend/core/tenant_cache.py:126-157 | Writing a sourced value keeps every payload of the store explained. |
| SingleFlightFreshness.ServedValuesAreFresh | backend/core/tenant_cache.py:95-157 | In every interleaving, what a read finds was in Redis from the start or was written or moved by the run less than its soft lifetime and stale window ago, the soft lifetime lying within the bounds of the writer's TTL and jitter. |
| SingleFlightFreshness.NextInv | backend/core/tenant_cache.py:126-157 | Every step keeps: each entry is an untouched one or the very entry some recorded write left. |
| SingleFlightLocks.StepRefines | backend/core/tenant_cache.py:276-297 | One step of the cache is one step of a key's token-lock protocol or none, unless it deletes that key's lock. |
| SingleFlightLocks.RunRefines | backend/core/tenant_cache.py:276-297 | Every run of the cache that deletes no lock of a key is a run of the key's token-lock protocol. |
| SingleFlightLocks.LockedSectionsAreExclusive | backend/core/tenant_cache.py:276-297 | In every run that deletes no lock of the key, of two calls inside its locked section at once one took the lock `lockTtl` milliseconds ago or more, and one millisecond at least. |
| SingleFlightLocks.NobodyEntersMeanwhile | backend/core/tenant_cache.py:276-297 | In such a run, from the moment a call entered the locked section, for `lockTtl` milliseconds or until it leaves, nobody else enters. |
| SingleFlightLocks.EntersExactlyWhenFree | backend/core/tenant_cache.py:283-288 | A call enters the locked section exactly when no lock of its key is live and the answer arrives. |
| SingleFlightLocks.DroppedLockAdmitsSecondHolder | backend/core/tenant_cache.py:188-209 | Deleting the lock key of a holder that took it less than `lockTtl` ago lets the next caller in beside it, and both locks are within their time. |
| SingleFlightLocks.DropBreaksExclusion | backend/core/tenant_cache.py:188-209 | A run from an empty Redis that ends so. |
| SingleFlightEndings.WaiterIsServed | backend/core/tenant_cache.py:290-297 | A call that was refused the lock and then finds the key filled in ends with that value under every schedule, and runs no factory. |
| SingleFlightEndings.HitIsServed | backend/core/tenant_cache.py:219-221 | A call that finds its key ends with the value at once. |
| SingleFlightEndings.FactoryErrorIsTheOutcome | backend/core/tenant_cache.py:243-258 | A factory that raises ends its call with that very exception, whatever follows. |
| SingleFlightEndings.WriteDecides | backend/core/tenant_cache.py:260-274 | After the write of a factory's value the call ends with the value, unless the write raised, the caller asked for CLOSED, and there was something to write. |
| SingleFlightEndings.UnreadableKey | backend/core/tenant_cache.py:95-104 | A call that cannot read its key ends with the error under CLOSED and goes on under OPEN. |
| SingleFlightEndings.FactoryRunsAfterAMiss | backend/core/tenant_cache.py:211-297 | A factory only runs after the key was missed or unreadable under OPEN, and with the lock refused only after a second miss. |
| SingleFlightEndings.JoinsAreTheSteps | backend/core/tenant_cache.py:231-241 | The joins the results speak of are those of calls that found their process's entry and wait for its owner. |
| SingleFlightEndings.RunsAreTheSteps | backend/core/tenant_cache.py:260-274 | The factory runs they speak of are those of the run. |
| SingleFlightEndings.WritesAreTheSteps | backend/core/tenant_cache.py:126-157 | The writes they speak of happened: the store holds each, with the lifetimes of its policy. |
| SingleFlightEndings.CallersAreRecorded | backend/core/tenant_cache.py:211-230 | So do the declared legacy keys and the keys asked for with CLOSED come from the calls. |
| TenantCache.Cache.ReadJson | backend/core/tenant_cache.py:95-124 | Raises, finds or misses as the store, the expiry and the fail mode say. |
| TenantCache.Cache.WriteJson | backend/core/tenant_cache.py:126-157 | Replaces exactly one entry when Redis answers; raises exactly when it does not and the policy is CLOSED. |
| TenantCache.Cache.AcquireLock | backend/core/cache_singleflight.py:25-32 | Returns a fresh token exactly when Redis answers and no live lock is there; the lock then expires max(lockTtl, 1) milliseconds later, and no other lock changes. |
| TenantCache.Cache.ReleaseLock | backend/core/cache_singleflight.py:35-39 | Removes the lock exactly when it is live and holds the caller's token. |
| TenantCache.Cache.Fill | backend/core/tenant_cache.py:260-274 | Returns the factory's outcome, unless a CLOSED write fails, and stores the value, a negative marker with the negative lifetime, or nothing. |
| TenantCache.Cache.DistributedFill | backend/core/tenant_cache.py:276-297 | Under the lock a fill, its lock taken and released; without it whatever is readable now, or else a fill; the answer, the store and the locks are all fixed. |
| TenantCache.Cache.MoveLegacy | backend/core/tenant_cache.py:211-230 | The first legacy key that answers decides; a found value is written under the new key and deleted under the old one. |
| TenantCache.Cache.Lead | backend/core/tenant_cache.py:231-258 | The future is resolved with the result and the table entry is gone, normally and on exceptions. |
| TenantCache.Cache.GetOrSet | backend/core/tenant_cache.py:211-258 | For every key, registered or not: the answer, the store and the locks are those of the sequential call; a call that waits has joined an unresolved entry, and no entry of its own is left behind. |
| TenantCache.DownAndOpenIsJustTheFactory | backend/core/tenant_cache.py:211-258 | With Redis down and OPEN a call that joins nobody is its factory and changes nothing. |
| TenantCache.DownAndClosedRaises | backend/core/tenant_cache.py:95-104 | With Redis down and CLOSED a call raises and changes nothing. |
| TenantCache.LegacyValueIsMoved | backend/core/tenant_cache.py:222-230 | The first legacy key that holds a value answers; the value is readable under the new key for the policy's lifetime, gone under the old one, and no other key changes. |
| TenantCache.FilledInFields | backend/core/tenant_cache.py:260-274 | A call that finds nothing stores a value for its lifetime, a marker for None when there is a negative lifetime, and nothing after an exception. |
| TenantCache.LocksAreLeftAsFound | backend/core/tenant_cache.py:276-297 | After a call exactly the locks are held that were held before. |
| TenantCache.FilledValueIsServed | backend/core/tenant_cache.py:211-274 | The value one call fills in is what every next call is served within the hard lifetime, whatever its own factory would say. |
| TenantCache.NoneIsNeverServed | backend/core/tenant_cache.py:95-173 | After a factory has said None, the next call at any later time still runs its own factory. |
| TenantCache.NegativeEntryIsAbsent | backend/core/tenant_cache.py:95-124 | A negative entry reads as absent at any time. |
| SoloCalls.SoloRunIsCallAlone | backend/core/tenant_cache.py:211-297 | A call of the protocol that steps alone, Redis answering or raising throughout, ends with the answer, the store and the locks of the sequential call, and leaves the `_inflight` tables as they were. |
| SoloCalls.ReachableSoloRun | backend/core/tenant_cache.py:211-297 | The same after any run of other calls, for a call that has just arrived. |
| SoloCalls.FromLegacy | backend/core/tenant_cache.py:222-230 | The same from any point of the loop over the legacy keys. |
| AnalysisJobs.AtMostOneActiveJob | backend/alembic/versions/g5a6b7c8d9e0_add_chess_analysis_fingerprint.py:43-49 | Over every run each (tenant, fingerprint) has at most one queued, running or completed job. |
| AnalysisJobs.EveryQueueingIsDispatchedOnce | backend/modules/chess_intelligence/analysis_service.py:132-288 | Outcomes that say dispatch never outnumber the steps of the run that queued the job, and match them once every request has answered. |
| AnalysisJobs.RequestsAreBounded | backend/modules/chess_intelligence/analysis_service.py:132-317 | Whatever other requests and the workers do, a request runs at most five statements, and can run one until it has answered. |
| AnalysisJobs.AllCanAnswer | backend/modules/chess_intelligence/analysis_service.py:132-317 | From any state some run ends with every request answered. |
| AnalysisJobs.OneRetryForEachFailure | backend/modules/chess_intelligence/analysis_service.py:206-241 | However many retries race, a job is dispatched at most once more often than the run made it FAILED. |
| AnalysisJobs.HistoryCounts | backend/modules/chess_intelligence/analysis_service.py:206-288 | The history fields of a job count the steps that made it QUEUED and FAILED. |
| AnalysisJobs.AnswersMatchTheRequest | backend/modules/chess_intelligence/analysis_service.py:132-317 | An answered request was answered with a job of its own tenant and fingerprint. |
| AnalysisJobs.EveryAnswerIsJustified | backend/modules/chess_intelligence/analysis_service.py:132-317 | Over every run the answer follows from what the request's own statements met: a dispatched job was queued by it with none active beside it; a reused one was found; a conflict or an integrity error means a lost race after which no job was active at one moment and none failed at a later one, or a reclaim the index refused. |
| AnalysisJobs.ActiveJobIsTheAnswer | backend/modules/chess_intelligence/analysis_service.py:290-317 | Over every run a request that looks, or looks again after a lost race, while a job of its identity is queued, running or completed is answered with that job, reused and not dispatched. |
| AnalysisJobs.SoloIsEnqueueAlone | backend/modules/chess_intelligence/analysis_service.py:132-204 | Run without interference the statements of a request amount to the sequential enqueue and never raise. |
| AnalysisJobs.EnqueueInFields | backend/modules/chess_intelligence/analysis_service.py:132-204 | Forced, an enqueue cancels the active jobs of the identity and queues a new one; unforced, an active job is the answer, else the newest failed job is queued again, else a new one. |
| AnalysisJobs.RacedInFields | backend/modules/chess_intelligence/analysis_service.py:235-288 | A sequential request that lost a race answers with the active job, or the newest failed one, and raises when all are cancelled. |
| AnalysisJobs.Service.FindMatchingJob | backend/modules/chess_intelligence/analysis_service.py:290-317 | The answer stands for the identity: an active job with no newer active one, or a failed job with nothing active and no newer failed one; no answer means that every job of the identity was cancelled. |
| AnalysisJobs.OneJobStands | backend/modules/chess_intelligence/analysis_service.py:290-317 | Only one answer can stand. |
| AnalysisJobs.Service.ReclaimFailedJob | backend/modules/chess_intelligence/analysis_service.py:206-241 | Requeues the job exactly when it is still failed and the index allows it; a lost race is answered with the job that now stands, or a conflict. |
| AnalysisJobs.Service.InsertQueuedJob | backend/modules/chess_intelligence/analysis_service.py:243-288 | Appends a queued job exactly when the index allows it; otherwise the answer is the job in the way, without dispatch. |
| AnalysisJobs.Service.Enqueue | backend/modules/chess_intelligence/analysis_service.py:132-204 | The table and the answer are those of the sequential enqueue, and the index still holds. |
| AnalysisJobs.Service.ProcessJob | backend/modules/chess_intelligence/analysis_service.py:394-474 | A worker's run ends completed, failed or refused by the index, and the index still holds. |
| AnalysisJobs.WorkWrites | backend/modules/chess_intelligence/analysis_service.py:394-474 | A worker's status write goes through and touches no other job, unless it would make the job active beside another active one of its identity. |
| Fingerprint.YieldedTellExactly | backend/modules/chess_intelligence/fingerprint.py:29-38 | All inputs with one payload agree in stripped FEN, cleaned moves text and result exactly when that payload divides at bars into stripped and lower-cased texts in one way only; it does so whenever the parts hold no bar. |
| Fingerprint.TellingExactlyWithoutBars | backend/modules/chess_intelligence/fingerprint.py:36 | Among arbitrary identities, whether or not cleaning yields them, all with the same payload agree in FEN, moves text and result exactly when none of the three holds a bar. |
| Fingerprint.GameFingerprintTellsPieces | backend/modules/chess_intelligence/fingerprint.py:29-38 | Two games whose FENs and moves hold no bar have one fingerprint exactly when stripped FEN, result and the blank-free pieces of the cleaned moves agree. |
| Fingerprint.PuzzleFingerprintTellsPieces | backend/modules/chess_intelligence/fingerprint.py:54-64 | The same for puzzles whose FENs hold no bar. |
| Fingerprint.JoinTellsPieces | backend/modules/chess_intelligence/fingerprint.py:36 | Two lists of non-empty moves join to one text exactly when they have the same pieces. |
| Fingerprint.JoinIsInjective | backend/modules/chess_intelligence/fingerprint.py:29-38 | Different lists of non-empty words without blanks join to different texts. |
| Fingerprint.BlanksAndBarsCollide | backend/modules/chess_intelligence/fingerprint.py:29-38 | A move holding a blank collides with two moves, and a FEN holding a bar with a shorter one. |
| CleanText.WritingDoesNotMatter | backend/modules/chess_intelligence/fingerprint.py:29-38 | A fingerprint does not see white space around FEN, moves or result, the case of moves, blank moves, or whether a missing result is absent, empty or a star. |
| CleanText.StripTakesSpaces | backend/modules/chess_intelligence/fingerprint.py:36-37 | Stripping takes the white space off both ends and nothing else. |
| CleanText.CleanMovesStay | backend/modules/chess_intelligence/fingerprint.py:36 | Moves that are clean already are kept as they are. |
| GameDedupe.FindLive | backend/modules/chess_intelligence/repository.py:19-32 | Finds a live row of the tenant with the fingerprint, and nothing only when there is none. |
| GameDedupe.EnrichSparseFields | backend/modules/chess_intelligence/dedupe.py:152-178 | Every blank field is filled from the sighting and every other field stays. |
| GameDedupe.Service.AttachSource | backend/modules/chess_intelligence/dedupe.py:111-149 | Adds one provenance row exactly when no row of the tenant and provider has the sighting's external id or, without a usable id, is for the same game, without an id, and agrees in name and index. |
| GameDedupe.NoRowExactlyWhenCovered | backend/modules/chess_intelligence/repository.py:159-198 | The look before the insert and the index together refuse exactly those sightings. |
| GameDedupe.UpsertInFields | backend/modules/chess_intelligence/dedupe.py:58-109 | The live row of the fingerprint is enriched and nothing else changes; or the game is inserted as sighted; or, its provider and external id being taken, the upsert fails and changes nothing. |
| GameDedupe.AttachInFields | backend/modules/chess_intelligence/dedupe.py:98-149 | An upsert's provenance row is added exactly when no row covers the sighting, and is primary exactly when the upsert inserted the game. |
| GameDedupe.Service.UpsertGame | backend/modules/chess_intelligence/dedupe.py:58-109 | Alone, an upsert enriches the live row of its fingerprint or inserts one, and raises only when a live game has its provider and external id. |
| GameDedupe.SoloIsUpsertAlone | backend/modules/chess_intelligence/dedupe.py:58-149 | An upsert of the protocol that nobody interferes with ends as the sequential one, tables and outcome. |
| GameDedupe.UpsertsAreBounded | backend/modules/chess_intelligence/dedupe.py:58-149 | Whatever other upserts do, an upsert takes at most six steps, and can take one until it has finished or failed. |
| GameDedupe.RefusedExactlyWhen | backend/modules/chess_intelligence/models.py:33-59 | The games indexes refuse an insert exactly when its fingerprint is live already or its provider and external id are taken by a live game. |
| GameDedupeRuns.FirstSightingWins | backend/modules/chess_intelligence/dedupe.py:152-178 | Each field holds the value of the first sighting that knew it, and is NULL only if none did. |
| GameDedupeRuns.EnrichKeepsFingerprint | backend/modules/chess_intelligence/dedupe.py:152-178 | Filling in a missing result from a sighting with the same fingerprint leaves the row's fingerprint right. |
| GameDedupeRuns.SameRowIffSameIdentity | backend/modules/chess_intelligence/dedupe.py:58-109 | Over every run of racing upserts, two of one tenant end at the same live row exactly when they sighted the same identity. |
| GameDedupeRuns.RowsAndUpsertsMatch | backend/modules/chess_intelligence/dedupe.py:58-109 | Every finished upsert ends at a row of its tenant and fingerprint, and every row was inserted by an upsert that says so, with that upsert's source. |
| GameDedupeRuns.OutcomesCountRows | backend/modules/chess_intelligence/dedupe.py:58-149 | Games and provenance rows are counted exactly by the outcomes that say created. |
| GameDedupeRuns.OnePrimarySource | backend/modules/chess_intelligence/dedupe.py:98-149 | A game has at most one primary provenance row, and it carries the game row's own source. |
| GameDedupeRuns.PrimaryExactlyWhenCreatorAttached | backend/modules/chess_intelligence/dedupe.py:98-149 | Over every run a game has a primary row exactly when the upsert that inserted it also created its row. |
| GameDedupeRuns.EverySightingIsRecorded | backend/modules/chess_intelligence/dedupe.py:98-149 | Over every run some provenance row records the sighting of each finished upsert, and it is the upsert's own row exactly when the outcome says so. |
| GameDedupeRuns.FailsExactlyWhen | backend/modules/chess_intelligence/dedupe.py:78-92 | An upsert fails exactly when it finds no live row after a refused insert; undisturbed, exactly when its id is taken and its fingerprint is not live. |
| GameDedupeRuns.FailedMeansRefusedAndLost | backend/modules/chess_intelligence/dedupe.py:78-92 | Over every run a failed upsert was refused its insert at one moment and found no live row of its fingerprint at a later one. |
| GameDedupeRuns.RowsKeepFirstSightings | backend/modules/chess_intelligence/dedupe.py:58-178 | Over every run each field is the first value sighted and each row still has the fingerprint of its own content. |
| GameDedupeRuns.ChessGamesMayArrive | backend/modules/chess_intelligence/dedupe.py:58-73 | Runs are open to every game whose FEN holds no bar and whose moves hold neither bars nor blanks. |
| ProviderSync.ComputeWindow | backend/modules/chess_intelligence/provider_sync_state.py:142-195 | The window ends now; it starts the lookback before the mark but not after now, and a first one reaches back the bootstrap span, seven days unless given, at least the lookback and otherwise at most 365 days. |
| ProviderSync.MarkIsLastCleanRun | backend/modules/chess_intelligence/catalog_job_sync.py:340-367 | Over any run of syncs the high-water mark is the clock of the last error-free one. |
| ProviderSync.FailedRunsKeepMark | backend/modules/chess_intelligence/catalog_job_sync.py:340-367 | Syncs with errors leave the high-water mark where it was. |
| ProviderSync.NoGaps | backend/modules/chess_intelligence/provider_sync_state.py:142-195 | Whatever fails in between and whatever the mark was at first, every date from the start of any error-free window up to the mark was in the window of an error-free sync. |
| ProviderSync.ListedGamesArePersisted | backend/modules/chess_intelligence/catalog_job_sync.py:157-371 | A game listed in every error-free sync, in windows that fit the batch, is in the catalog once the mark has passed its date. |
| ProviderSync.PersistedExactly | backend/modules/chess_intelligence/catalog_job_sync.py:190-250 | A run adds exactly the games of its batch that did not fail, and the batch holds only listed games without a date or with one inside the window. |
| ProviderSync.CleanRunPersistsWindow | backend/modules/chess_intelligence/catalog_job_sync.py:190-206 | An error-free sync persists its whole window exactly when the window fits the batch. |
| ProviderSync.BatchLosesAGame | backend/modules/chess_intelligence/catalog_job_sync.py:206-206 | An error-free sync that moves the mark and does not store a listed game. |
| ProviderSync.Analyze | backend/modules/chess_intelligence/catalog_job_sync.py:271-308 | New jobs are min(cap, candidates that would queue one), every candidate is counted once, and dispatches are the new jobs plus the reclaimed jobs met before the cap was reached. |
| ProviderSync.ConsideredExactly | backend/modules/chess_intelligence/catalog_job_sync.py:234-242 | With automatic analysis the candidates are the created games and, unless only new ones count, the linked ones; without it there are none. |
| ProviderSync.ReusesAreCounted | backend/modules/chess_intelligence/catalog_job_sync.py:271-308 | Reused jobs are those met before as many new jobs as the cap. |
| ProviderSync.DispatchesAreNewJobs | backend/modules/chess_intelligence/catalog_job_sync.py:273-290 | Only new jobs are dispatched exactly when the cap was reached before every reclaimed job. |
| ProviderSync.CapBoundsDispatches | backend/modules/chess_intelligence/catalog_job_sync.py:273-290 | Dispatches stay within the cap exactly when no reclaimed job is met, or all fit beside the new ones. |
| ProviderSync.ReclaimPassesTheCap | backend/modules/chess_intelligence/catalog_job_sync.py:273-290 | A list on which they do not. |
| ProviderSync.Touched | backend/modules/chess_intelligence/catalog_job_sync.py:54-57 | Progress stays within 0 and 0.99 and is kept when it already lies there. |
| ProviderSync.CountsAddUp | backend/modules/chess_intelligence/catalog_job_sync.py:208-250 | Inserted, linked, duplicates and errors partition the batch. |
| ProviderSync.Job.Run | backend/modules/chess_intelligence/catalog_job_sync.py:157-371 | The counters partition the batch, the mark moves exactly when nothing failed, the catalog gains exactly the games that did not fail, and the analysis counters and dispatches are exact. |
| FamousCatalog.BestIsTheFirstMaximum | backend/modules/chess_intelligence/famous_catalog.py:194-209 | The best match is the first entry with the highest counted score, and none only when nothing counts. |
| FamousCatalog.BestFamousMatch | backend/modules/chess_intelligence/famous_catalog.py:194-209 | The loop computes that first maximum. |
| FamousNames.ScoresExactlyWhen | backend/modules/chess_intelligence/famous_catalog.py:142-191 | An entry scores 100 for the game's fingerprint, or its points when the year is within one, they reach 70, and the opening moves agree or else both players and the very year do. |
| FamousNames.PlayerCounts | backend/modules/chess_intelligence/famous_catalog.py:84-107 | A player counts exactly when the words of the entry's name or an alias lie within those of the game's, or the other way round, or all occur there, or one word of four characters is shared. |
| FamousNames.EventCounts | backend/modules/chess_intelligence/famous_catalog.py:110-123 | The same for events, where one shared word of any length is enough. |
| FamousNames.NamesAloneAreNotEnough | backend/modules/chess_intelligence/famous_catalog.py:181-189 | Without the fingerprint and the opening moves a match needs both players and the very year. |
| FamousNames.StrangersNeedTheMoves | backend/modules/chess_intelligence/famous_catalog.py:90-107 | A player who shares no word with the entry's names, with no containment either way, leaves only the fingerprint or the opening moves. |
| FamousNames.NormalNameIsItsWords | backend/modules/chess_intelligence/fingerprint.py:64-71 | A normalised name is its runs of letters and digits, in lower case, joined by single blanks. |
| FamousNames.TokensAreWords | backend/modules/chess_intelligence/famous_catalog.py:98-99 | The tokens that are compared are those runs. |
| FamousCatalog.CurateTwice | backend/modules/chess_intelligence/famous_catalog.py:212-246 | Applying the same entry again changes nothing. |
| FamousNames.CuratedInFields | backend/modules/chess_intelligence/famous_catalog.py:212-246 | Curation marks and names the game, fills in a missing year and event, stamps id and note, and leaves the rest alone. |
| FamousNames.CuratedTags | backend/modules/chess_intelligence/famous_catalog.py:221-231 | The tags are the old ones in front, the entry's and the two stamps, none twice. |
| FamousCatalog.GainFromEvent | backend/modules/chess_intelligence/famous_catalog.py:110-123 | What an entry gains when a missing event is filled in with another's. |
| FamousCatalog.FilledEventKeepsWinner | backend/modules/chess_intelligence/famous_catalog.py:142-191 | Filling a missing event gives the winner its ten points whenever it gives them to anybody, so the winner stays first. |
| FamousCatalog.FlatHundredStaysBest | backend/modules/chess_intelligence/famous_catalog.py:153-154 | An exact-fingerprint winner stays best exactly when nobody overtakes its flat 100. |
| FamousCatalog.WinnerStaysBest | backend/modules/chess_intelligence/famous_catalog.py:142-246 | After the best entry has been applied it is still the best, exactly when it did not win by fingerprint or nobody overtakes it. |
| FamousCatalog.SettlesInFields | backend/modules/chess_intelligence/famous_catalog.py:142-246 | A game fails to settle exactly when a fingerprint match wins, the year or event is missing, and some entry without that fingerprint, within a year of the filled-in year or without a year of its own, has more than 100 points, or 100 from an earlier place. |
| FamousCatalog.OvertakesInFields | backend/modules/chess_intelligence/famous_catalog.py:142-191 | One rival overtakes a fingerprint winner exactly when it gets past it in these fields. |
| FamousCatalog.SecondPassIsNoop | backend/modules/chess_intelligence/famous_catalog.py:142-246 | A second pass over a game changes nothing when the game settles, a condition on the game before the first pass, and in a catalog without repeated ids only then. |
| FamousCatalog.CompleteGameSettles | backend/modules/chess_intelligence/famous_catalog.py:232-237 | A game whose event and year are already there settles. |
| FamousCatalog.FingerprintWinnerCanBeOvertaken | backend/modules/chess_intelligence/famous_catalog.py:153-154 | A catalog and a game that do not settle. |
| FamousService.GameRow.MergeTags | backend/modules/chess_intelligence/famous_catalog.py:221-231 | Tags are merged behind the old ones without duplicates, and a change is reported exactly when there is one. |
| FamousService.GameRow.StampMeta | backend/modules/chess_intelligence/famous_catalog.py:238-245 | The entry's id and note are stamped, and a change is reported exactly when there is one. |
| FamousService.GameRow.ApplyFamousMetadata | backend/modules/chess_intelligence/famous_catalog.py:212-246 | The row becomes the curated game, and the answer tells whether anything changed. |
| FamousService.CurateRow | backend/modules/chess_intelligence/famous_service.py:41-73 | One row is matched and, unless the run is dry, curated. |
| FamousService.ApplyToTenant | backend/modules/chess_intelligence/famous_service.py:41-73 | Every row gets its pass, a dry run touches nothing, and the report counts them. |
| FamousService.SecondRunUpdatesNothing | backend/modules/chess_intelligence/famous_service.py:41-73 | A second run reports nothing updated when every game settles, and without repeated ids only then. |
| FamousService.ReportBalances | backend/modules/chess_intelligence/famous_service.py:41-73 | Every scanned game is matched or skipped, and no more are updated than matched. |
| CatalogPaging.SearchReturnsPrefix | backend/modules/chess_intelligence/catalog_queries.py:114-150 | A page is the first rows beyond the cursor, with a successor exactly when there are more. |
| CatalogPaging.PagesShrink | backend/modules/chess_intelligence/catalog_queries.py:67-81 | Every page with a successor leaves strictly fewer rows, so a walk ends whatever the stamps. |
| CatalogPaging.WalkReturnsEverything | backend/modules/chess_intelligence/catalog_queries.py:57-150 | Walks with any page sizes return the whole ordered list exactly when the cursor's order agrees with the query's; whole-second stamps suffice. |
| CatalogPaging.WholeSecondsSuffice | backend/modules/chess_intelligence/catalog_queries.py:57-81 | With whole-second stamps the two orders agree. |
| CatalogPaging.SubSecondRowIsSkipped | backend/modules/chess_intelligence/catalog_queries.py:57-81 | A walk over two rows within one second that skips one. |
| CatalogPaging.WalkSurvivesChanges | backend/modules/chess_intelligence/catalog_queries.py:152-188 | Whatever is inserted or deleted between pages, the walk is strictly ordered, lists only rows that were there, and every row that stayed throughout is listed once it finishes. |
| CatalogPaging.WalkFinishes | backend/modules/chess_intelligence/catalog_queries.py:152-188 | When every row inserted between pages precedes the cursor, the walk finishes within one page more than there were rows to list. |
| CatalogPaging.WalkListsEveryStayingRow | backend/modules/chess_intelligence/catalog_queries.py:152-188 | While only newer rows arrive and any rows go, a walk finishes within one page more than there were rows at first and lists every row that stayed, in order and nothing twice. |
| MapConcurrent.MapSequentially | backend/core/http_concurrency.py:13-43 | The reference: each worker's value or exception at its item's place, and a missing-result error for None alone. |
| MapConcurrent.RunAll | backend/core/http_concurrency.py:13-43 | Whatever the scheduler picks there is always a step, a run takes two steps for each item, at most `limit` workers are in flight, every permit comes back, and every value, exception and None ends up as in the reference. |
| MapConcurrent.MapConcurrent | backend/core/http_concurrency.py:13-43 | A limit below one is refused unless there is nothing to do; otherwise every value, exception and None ends up as in the reference. |
| HttpRetry.ParseRetryAfter | backend/core/http.py:133-161 | The delay is the header's number or date, or the default without a readable one, moved into the range from 0 to the clamp. |
| HttpRetry.EveryRetryHasACause | backend/core/http.py:205-265 | The retries before the last attempt are the 429s plus the transport errors. |
| HttpRetry.CausesAreCounted | backend/core/http.py:205-265 | The two counters are the numbers of answered and of lost attempts. |
| HttpRetry.SleepIsBounded | backend/core/http.py:164-174 | Total sleep is at most retries times the longer of eight seconds and the clamp. |
| HttpRetry.TransportSleep | backend/core/http.py:249-262 | Transport errors alone cost 1, 2, 4 and then 8 seconds each. |
| HttpRetry.EachSleep | backend/core/http.py:205-262 | What each retry sleeps: the seconds a 429 asks for, one when it does not say, and 1, 2, 4, 8 after transport errors. |
| HttpRetry.CallKeepsBalance | backend/core/http.py:205-265 | Over any calls, requests less retries is the number of calls, and every retry is a 429 or a transport error that was not raised. |
| HttpRetry.Client.Request | backend/core/http.py:177-265 | A call, waiting for a permit whenever the others hold them all, ends at the first attempt that is not retryable, or the last, with that attempt's outcome; counters and sleep are exact, sleep is within its bound, every permit comes back, and the code after the loop needs a negative number of retries. |
| TaskLedger.DurableIsSaved | backend/workers/runtime.py:147-188 | Running an operation's actions leaves durable exactly the writes that some commit follows with no rollback in between, in order, and pending those that neither follows. |
| TaskLedger.CommitSaves | backend/workers/runtime.py:168-178 | A commit saves what was outstanding and nothing else. |
| TaskLedger.Session.Perform | backend/workers/runtime.py:166-168 | An operation leaves its saved writes durable and its outstanding ones pending. |
| TaskLedger.Session.RunAsyncTask | backend/workers/runtime.py:122-199 | The row ends completed with every outstanding write saved, or failed with exactly the effects up to the last commit; it stays running only when the failure record is lost too. |
| TaskLedger.Session.RunDetachedAsyncTask | backend/workers/runtime.py:202-281 | Only the operation's own commits count, and the row stays running exactly when the commit recording the end is lost. |
| TaskLedger.LostSuccessRecord | backend/workers/runtime.py:202-281 | One returning operation whose success record is lost: the detached row stays running, the plain one is failed. |
| TaskLedger.Session.RunAsyncTaskSimple | backend/workers/runtime.py:284-298 | Outstanding writes are saved exactly when the operation returned and the commit went through. |
| TemplateStats.FoldKeepsMean | backend/modules/analytics/repository.py:254-284 | Folding a sample keeps the averages the exact mean of all samples. |
| TemplateStats.SumPermutes | backend/modules/analytics/repository.py:216-290 | The sum of samples does not depend on their order. |
| TemplateStats.MeanIsOrderFree | backend/modules/analytics/repository.py:216-290 | The same samples in any order give the same row. |
| TemplateStats.FoldAddsOne | backend/modules/analytics/repository.py:216-290 | A fold adds one to the sum of sample counts over the whole table. |
| TemplateStats.CountsMatchSnapshots | backend/modules/analytics/snapshot_sync.py:64-150 | After any interleaving of syncs every template is the mean of its folds, no snapshot row is folded twice, and sample counts, pending folds and lost folds add up to the snapshot rows. |
| TemplateStats.UpsertsConverge | backend/modules/analytics/repository.py:122-196 | However many upserts race for one (post, date), exactly one is told that it inserted, none if the row was there, and the row holds the sample written last. |
| TemplateStats.Repository.UpsertSnapshot | backend/modules/analytics/repository.py:122-196 | The table grows by one row exactly when the answer is inserted, the row holds the sample, and every other row stays. |
| TemplateStats.Repository.ApplySample | backend/modules/analytics/repository.py:216-290 | The conflict clause's arithmetic is one fold, metric by metric. |
| TemplateStats.Repository.SyncPost | backend/modules/analytics/snapshot_sync.py:64-147 | One post: the snapshot is written, and folded only when this sync inserted the row. |
| TemplateStats.Repository.SyncPostSnapshots | backend/modules/analytics/snapshot_sync.py:19-153 | Each post's row holds what was fetched, or its synthetic numbers; other rows stay; every new fold is such a sample, under the post's template, for a row that is new; each new row adds one sample or one lost fold, and a same-day repeat adds none. |
| OverviewCharts.BucketIsItsSum | backend/modules/analytics/overview_builder.py:12-60 | Each bucket is the sum over the snapshots with its key. |
| OverviewCharts.BucketsAreTheKeys | backend/modules/analytics/overview_builder.py:12-60 | There is a bucket for each key that occurs and no other. |
| OverviewCharts.PayloadLabels | backend/modules/analytics/overview_builder.py:33-39 | The hook, hour and brand of a snapshot, in the payload's own keys, with their defaults. |
| OverviewCharts.PlainLabels | backend/modules/analytics/overview_builder.py:24-32 | An account goes by its label, or by its platform and the first eight characters of its id. |
| OverviewCharts.BucketsConserve | backend/modules/analytics/overview_builder.py:12-60 | A chart's buckets sum to the values of the snapshots that have a key, which is every snapshot but for the topic charts. |
| OverviewCharts.ChartsAgreeWithTotals | backend/modules/analytics/service.py:116-132 | All charts that count views have one total. |
| OverviewCharts.AggregateSnapshotCharts | backend/modules/analytics/overview_builder.py:12-60 | The single pass fills all ten dictionaries as their charts are defined. |
| ContentOpportunity.ScoreIsCapped | backend/modules/chess_intelligence/content_opportunity.py:15-33 | The score is within 0 and 100 and each component within its cap. |
| ContentOpportunity.NonZeroIsExplained | backend/modules/chess_intelligence/content_opportunity.py:64-226 | A component is non-zero exactly when it carries a reason. |
| ContentOpportunity.WeighGrows | backend/modules/chess_intelligence/content_opportunity.py:115-134 | More patterns, in any order, weigh no less. |
| ContentOpportunity.ComponentsGrow | backend/modules/chess_intelligence/content_opportunity.py:64-226 | No component drops when patterns, moments or tags are added or a rating rises. |
| ContentOpportunity.ScoreGrows | backend/modules/chess_intelligence/content_opportunity.py:64-226 | Nor does the score. |
| ContentOpportunity.OrderDoesNotMatter | backend/modules/chess_intelligence/content_opportunity.py:64-226 | Permuting patterns and moments changes no component. |
| ContentOpportunity.ComputeContentOpportunity | backend/modules/chess_intelligence/content_opportunity.py:64-226 | The accumulating code returns, for each component, the capped sum of the very points its reasons carry, and their total as score. |
| ContentScores.TacticalInCounts | backend/modules/chess_intelligence/content_opportunity.py:114-142 | The tactical component from the patterns by kind and the mistakes by number. |
| ContentScores.SwingInCounts | backend/modules/chess_intelligence/content_opportunity.py:144-158 | The swing component from the moments by number. |
| ContentScores.PuzzleInCounts | backend/modules/chess_intelligence/content_opportunity.py:160-179 | The puzzle component from the sharp patterns, a mate and the length. |
| ContentScores.VideoInFields | backend/modules/chess_intelligence/content_opportunity.py:181-198 | The video component. |
| ContentScores.HistoricalInFields | backend/modules/chess_intelligence/content_opportunity.py:85-96 | The historical component. |
| ContentScores.FameInFields | backend/modules/chess_intelligence/content_opportunity.py:98-112 | The fame component from the two ratings. |
| ContentScores.DateInFields | backend/modules/chess_intelligence/content_opportunity.py:200-210 | The anniversary component. |
| Approvals.CountIsChainLength | backend/modules/approvals/approval_actions.py:209-248 | Over any decisions the revision count is the length of the chain of regenerated jobs plus the revisions whose regeneration raised, and the row points at the newest draft. |
| Approvals.RevisionsAreBounded | backend/modules/approvals/approval_actions.py:147-159 | The count exceeds five only by as many as the operator regenerated. |
| Approvals.SixthRevisionRejects | backend/modules/approvals/approval_actions.py:209-225 | A revision with feedback rejects without regenerating exactly when the workflow forbids revisions or five were made. |
| Approvals.ForbiddenRevisionsDoNothing | backend/modules/approvals/approval_actions.py:215-218 | Under a workflow that forbids revisions only the operator regenerates, and nothing is published here. |
| Approvals.EachApprovalPublishesNewest | backend/modules/approvals/approval_actions.py:174-206 | An unbound asset or publish request publishes the newest draft at every approval that does not raise and at nothing else. |
| Approvals.OthersPublishNothing | backend/modules/approvals/approval_actions.py:174-206 | A request of a workflow, or one without a draft, publishes nothing here, whatever is decided. |
| Approvals.StatusAfter | backend/modules/approvals/approval_actions.py:134-289 | Where each decision leaves the row: status, count, draft and kind. |
| Approvals.RaisesExactlyWhen | backend/modules/approvals/approval_actions.py:134-289 | Which decisions raise. |
| Approvals.RevisionForgetsThePlan | backend/modules/approvals/approval_outbound.py:51-61 | A publish request keeps its kind exactly when no revision got as far as refreshing the row. |
| Approvals.OneRevisionForgetsThePlan | backend/modules/approvals/approval_outbound.py:51-61 | One revision of a publish request, after which an approval publishes without the plan. |
| Approvals.ApprovalRequest.ApplyApprove | backend/modules/approvals/approval_actions.py:174-206 | The row is approved, and published unless it has no job, belongs to a workflow, or publishing raises, which leaves it approved. |
| Approvals.ApprovalRequest.ApplyRevise | backend/modules/approvals/approval_actions.py:209-248 | The row, the chain and the exception are those of one revision. |
| Approvals.ApprovalRequest.Decide | backend/modules/approvals/approval_actions.py:257-289 | Every decision changes the row as the run results assume, and raises exactly when stated. |

## Left out

- Task cancellation inside a leader: the futures of a cancelled leader are not modelled.
- `return_exceptions=False` in `map_concurrent` and the cancellation of its siblings; the FIFO order of the semaphore.
- Cached values that look like the wrapper or the negative marker are excluded where a result needs it, by `Plain`; a soft expiry stored as a string is read as broken.
- `assert_no_credentials` raises before a write; such a value is a write that was not applied.
- Cache statistics, metrics, audit records, logging and tracing.
- Prefix invalidation is any number of single key deletions; `flush_namespace` likewise.
- Fingerprint.FingerprintIsIdentity: a corollary for chess text, that is a FEN without bars and moves without bars or blanks, used by the results on upserts; so is PuzzleFingerprintIsIdentity. Arbitrary strings are covered by the rows of `Fingerprint`.
- GameDedupeRuns.SameRowIffSameIdentity: upserts arrive with chess text, as parsed games do.
- Lock tokens are unique and the hash is injective, so a fingerprint is its payload.
- `Text` knows ASCII letters and white space only; Unicode case folding is not modelled.
- Floats are reals, so rounding is not modelled, in averages, scores and seconds alike; a Retry-After of NaN is not a real number and has no counterpart.
- AnalysisJobs.Service.ProcessJob: the engine and what it stores are an outcome; only status writes are modelled. CANCELLED is not claimed to be final, because a worker that holds the job does not look at it.
- A request's transaction: a statement that was done stays done in the models of enqueue, upsert and approval, also when the request raises later; undoing it is the caller's rollback. Uncommitted rows of others are visible at once, as if every statement committed.
- GameDedupeRuns.RowsKeepFirstSightings: takes enrichment as one atomic step, so two transactions that fill the same blank at once are not told apart.
- License notes, URLs, batch ids and retrieval times of a provenance row.
- Parsing of PGN, dates and FENs; a game's date is the parsed value.
- Year clamps of the sync window and the provider's own search limits; `max_games` is taken after clamping.
- Eligibility rules for analysis are an answer of the environment, as is what `enqueue` does.
- TemplateStats: `engagement_score`, which the source overwrites after the fold, other tenants, and a failed statement's effect on the surrounding transaction.
- HttpRetry.Client.Request: the counters of other calls that run at the same time are left aside; their use of permits is not.
- TaskLedger: the operation does not touch its own ledger row, and a failing commit of its own counts as a rollback.
- Approvals: preferences, messages, workflow resumption, and the Telegram handlers that replace the payload; a regenerated job is new, so the row found for it is the one being revised.
- The learning log of the overview, which only ranks the buckets.
- Routers, middleware, schemas, queue wiring, storage, social, chess and messaging clients: plumbing, or answers of the environment.
- Roll-out, rate limit, websocket lists, worker capacity, callback signing and analysis history: each is one function whose body says all there is to say.
