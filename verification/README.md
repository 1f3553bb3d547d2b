# Perfana: verified models of its stateful core

Dafny models of the parts of Perfana whose behaviour depends on state kept over many steps, or
on arithmetic that is easy to get wrong, with proofs of what they guarantee. `dafny verify
dfyconfig.toml` checks everything.

## What is modelled

**Distributed rate limiting** (`RedisModel`, `RateLimiter`, `ScriptPath`, `FallbackPath`,
`RetryAfter`, `ThrottlerStorage`). Any number of API instances share Redis counters. `RateLimiter` is a machine
whose events are single Redis calls of single requests: the Lua script, the reload after NOSCRIPT,
the MULTI fallback, and the fallback's separate EXPIRE. Each call may answer, run with its answer
lost, or not run; any event may come at any time. The window bounds hold for every sequence of
events. The service and the guard are classes in `ThrottlerStorage`, and one `Increment` is proved
to be the run of one request of that machine. Redis' TTL answers in rounded seconds, so a counter in
its last half second reports 0, which `|| -1` turns into "no TTL"; the model has this, and
`FallbackMatchesScript` says exactly when it matters.

**Deduplication** (`Duplicates`, `Dedup`, `DedupTheorems`). The tables, their natural keys and the
references between them, the script's loops as methods that update a database object, and what one
run and two runs achieve. Ties in `created_at` and the order of equally large groups are left to the
database: a result holds for every answer the queries may give, and `ListingExists` shows there is one.

**Rollup backfill** (`Backfill`). The driver's loop against a database and a queue that workers change
between any two of its statements.

**Client protocols** (`SocketManager`, `RealtimeMachine`, `RealtimeTheorems`, `RealtimeHook`,
`JobProgress`). Each is a class whose methods are the steps of a state machine and keep `Valid()`,
the invariants proved of every run of that machine; the theorems are about every sequence of steps,
including those the authors did not plan for.

**CSP header patch** (`OrderedMap`, `CspPatch`). Parser, printer and rewriting of
`Content-Security-Policy` headers, a part of the serialized policies of section 2.2 of W3C Content
Security Policy Level 3.

**Configuration hash** (`Sorting`, `ConfigHash`). `simpleHash` on UTF-16 code units with ToInt32 of
section 7.1.6 of ECMA-262, and the key-sorted JSON text it hashes.

**MCP summaries** (`ConfigDiff`, `Grouping`, `AdaptSummary`, `PerformanceRanking`, `Downsampling`).
JavaScript's Map, Set and stable sort are modelled with their orders.

`Collections` holds facts about finite sets that several of these share.

## What turned out false, and when it holds

- The fallback path does not always do what the script does: they agree if and only if the counter
  is absent or Redis reports at least one second of TTL (`FallbackMatchesScript`).
- An interval of one TTL can admit up to `2L - 1` requests of limit `L`, not `L`. The bound holds in
  every run and is reached for every limit (`WindowBound`, `WindowBoundIsReached`), so that limit `L`
  itself is kept in all runs if and only if `L <= 1` (`LimitHoldsIff`).
- Waiting for Retry-After outlasts the rejecting window if and only if some EXPIRE ran on that window
  and none ran on it after the rejection (`RetryAfterIff`). Script-only runs meet this
  (`RetryAfterOutlastsWindow`). A fallback's late EXPIRE breaks it (`LateExpireFails`), and a lost one
  leaves the window open for ever, since the script arms only a first hit (`LostExpireFails`).
- One executed deduplication run removes every benchmark duplicate if and only if no two benchmarks
  differed merely by duplicate dashboards (`OneRunSufficesIff`, `OneRunCanLeaveDuplicates`).
- The listeners attached to a live socket equal the registry all along a run if and only if no
  listener is registered again for its event on a live socket (`ListenersMatchRegistry`,
  `RegisteredTwice`).
- A completed job is remembered for 30 seconds after its *first* recent completion, not its last
  (`RememberedExactlyWhileFresh`, `RepeatedCompletionForgetsEarly`).
- `simpleHash` drops the sign: strings collide exactly when their polynomials are equal or opposite
  modulo 2^32 (`CollisionsExactly`). Its comment promises 32 characters; the code returns 8.
- Parsing and printing a CSP header is the identity if and only if no name repeats and no directive
  is a name followed by one space (`PrintParse`).
- Ranking sorts by rounded numbers. The list is ordered by the real ones if and only if, among
  transactions that round to the same number, the higher ones were given first
  (`ExactlyRankedIff`, `SlowerRankedFirst`); an error is always below the rounding resolution
  (`RankedWithinResolution`).

## Model

| member | source | states |
|---|---|---|
| RateLimiter.RunsAreSane | apps/api/src/guards/throttler-storage-redis.service.ts:26-132 | In every run over one key with one TTL, windows are disjoint and last at least the TTL, hits of a window have increasing numbers in time order, and each answered request owns a hit of its own. |
| RateLimiter.WindowBound | apps/api/src/guards/enhanced-throttler.guard.ts:44-68 | For every interleaving and every lost answer, any half-open interval of TTL length admits fewer than 2L requests of limit at most L (none if L is 0). |
| RateLimiter.WindowBoundIsReached | apps/api/src/guards/throttler-storage-redis.service.ts:26-35 | For every key, TTL and positive limit there is a run that admits exactly 2L - 1 in one such interval. |
| RateLimiter.LimitHoldsIff | apps/api/src/guards/enhanced-throttler.guard.ts:54-68 | Every interval of every run admits at most L requests of limit L if and only if L is at most 1. |
| RateLimiter.OneWindowBound | apps/api/src/guards/throttler-storage-redis.service.ts:65-86 | Of one window, at most L - k requests numbered above k are admitted under limits of at most L. |
| ScriptPath.FirstHitsAdmitted | apps/api/src/guards/enhanced-throttler.guard.ts:54-70 | On script-only runs with one limit, exactly the first min(h, L) of h hits of a window are admitted, and Remaining is the limit minus those admitted up to that hit. |
| ScriptPath.CountedOnce | apps/api/src/guards/throttler-storage-redis.service.ts:73-103 | On script-only runs, whatever is interleaved and however often the script is reloaded, an answered request owns exactly one hit of the log, the one it was answered with. |
| ScriptPath.LiveCountersExpire | apps/api/src/guards/throttler-storage-redis.service.ts:29-34 | On script-only runs every live counter has an expiry, in the future and at most one TTL away. |
| FallbackPath.FallbackMatchesScript | apps/api/src/guards/throttler-storage-redis.service.ts:106-131 | Run alone, the fallback leaves the same counters, log and record as the script if and only if the counter is absent or its reported TTL is at least 1. |
| FallbackPath.NoScriptRetryCountsOnce | apps/api/src/guards/throttler-storage-redis.service.ts:87-103 | NOSCRIPT, reload and retry with nothing in between end in the state of one plain script call, with one hit more. |
| FallbackPath.LateExpireNeverShortens | apps/api/src/guards/throttler-storage-redis.service.ts:121-124 | In every run with one TTL, a late EXPIRE keeps count and window of a live counter and never moves its expiry earlier. |
| RetryAfter.WindowOverIff | apps/api/src/guards/throttler-storage-redis.service.ts:26-131 | In every run with one TTL a window that was hit is over if and only if some EXPIRE ran on it and none within the last TTL. |
| RetryAfter.RetryAfterIff | apps/api/src/guards/enhanced-throttler.guard.ts:63-67 | In every run with one TTL a request counted at t that comes back at t + TTL finds its window over if and only if some EXPIRE ran on that window and none ran on it after t. |
| RetryAfter.RetryAfterOutlastsWindow | apps/api/src/guards/enhanced-throttler.guard.ts:63-67 | On script-only runs whoever waits Retry-After or longer from a hit finds no counter, or one of a window begun after that hit. |
| RetryAfter.LateExpireFails | apps/api/src/guards/throttler-storage-redis.service.ts:121-124 | For every key and TTL, a run in which a rejected request waits its TTL and meets the same window, because the EXPIRE of another request's fallback ran on it in between. |
| RetryAfter.LostExpireFails | apps/api/src/guards/throttler-storage-redis.service.ts:107-124 | For every key, TTL and waiting time, a run in which the EXPIRE was lost and the rejected request still meets the same window. |
| ThrottlerStorage.ThrottlerStorageRedisService.LoadScript | apps/api/src/guards/throttler-storage-redis.service.ts:46-52 | The SHA is cached on first success, kept afterwards, and absent after a failed load. |
| ThrottlerStorage.ThrottlerStorageRedisService.EvalSha | apps/api/src/guards/throttler-storage-redis.service.ts:26-35 | One evaluation counts the hit, arms the expiry on the first one, and replies with count and TTL; an evaluation that did not run changes nothing. |
| ThrottlerStorage.ThrottlerStorageRedisService.Fallback | apps/api/src/guards/throttler-storage-redis.service.ts:106-132 | The fallback's calls leave the database and answer that the interleaved machine gives the same request from MULTI on. |
| ThrottlerStorage.ThrottlerStorageRedisService.Increment | apps/api/src/guards/throttler-storage-redis.service.ts:65-133 | Whatever each call meets, `increment` leaves the counters, and returns the record or error, of its one request's run in the interleaved machine. |
| ThrottlerStorage.CallsInOrder | apps/api/src/guards/throttler-storage-redis.service.ts:72-132 | The fixed list of calls comes to: script, possibly retried, and then the fallback only if that did not answer. |
| ThrottlerStorage.WhenItFails | apps/api/src/guards/throttler-storage-redis.service.ts:72-132 | A request never fails when the script answers, at once or after the reload, nor when MULTI and EXPIRE do; it always fails when neither the script nor MULTI does. |
| ThrottlerStorage.AnsweredByScript | apps/api/src/guards/throttler-storage-redis.service.ts:77-86 | A request the script answers leaves its counter one higher, a first one with a whole TTL to live; its record has that count, whether it exceeds the limit, and the time to live within half a second. |
| ThrottlerStorage.EnhancedThrottlerGuard.CanActivate | apps/api/src/guards/enhanced-throttler.guard.ts:30-71 | Skipped routes touch nothing; otherwise the request is counted and allowed exactly if its hit is within the limit. Retry-After, sent on rejection only, is the window in seconds, rounded up; X-RateLimit-Reset is the time in seconds, rounded up, plus that; a first hit that the script answers leaves a counter with exactly that window to live; Remaining is the limit minus the count, at least 0 (RFC 6585 section 4, RFC 9110 section 10.2.3). |
| Duplicates.Merge | apps/grafana-sync/scripts/deduplicate-dashboards-benchmarks.ts:146-147 | A merge sends every row to one surviving oldest row of its key, all rows of a key to the same one, and deletes exactly the rows it sends elsewhere. |
| Duplicates.MergedKeysUnique | apps/grafana-sync/scripts/deduplicate-dashboards-benchmarks.ts:175-179 | After all listed groups are merged no two rows share a key. |
| Duplicates.NothingListed | apps/grafana-sync/scripts/deduplicate-dashboards-benchmarks.ts:65-75 | The duplicate query answers nothing if and only if keys are unique. |
| Duplicates.DeletedCount | apps/grafana-sync/scripts/deduplicate-dashboards-benchmarks.ts:142-147 | The ids deleted for disjoint groups number the sum of (group size - 1). |
| Duplicates.ListingExists | apps/grafana-sync/scripts/deduplicate-dashboards-benchmarks.ts:47-77 | For every table the duplicate query has an answer: all groups of more than one row, oldest first, larger groups first. |
| Dedup.Database.DeduplicateApplicationDashboards | apps/grafana-sync/scripts/deduplicate-dashboards-benchmarks.ts:128-188 | The loop over groups repoints and deletes as one merge of all of them and returns their totals; a dry run changes nothing. |
| Dedup.Database.MergeDashboardGroup | apps/grafana-sync/scripts/deduplicate-dashboards-benchmarks.ts:154-179 | One group's statements repoint both referencing tables to the kept row, then delete the others, and touch no other table. |
| Dedup.Database.DeduplicateBenchmarks | apps/grafana-sync/scripts/deduplicate-dashboards-benchmarks.ts:190-240 | The same for benchmarks and the references of test runs. |
| Dedup.Database.MergeBenchmarkGroup | apps/grafana-sync/scripts/deduplicate-dashboards-benchmarks.ts:216-231 | One group's updates, id by id, come to one repointing of test runs, and its other rows are deleted. |
| Dedup.Database.Execute | apps/grafana-sync/scripts/deduplicate-dashboards-benchmarks.ts:267-312 | A run with both listings taken first is the dashboard merge followed by the benchmark merge; a dry run changes nothing; totals are those of the listings. |
| DedupTheorems.DashboardsUniqueAfterOneRun | apps/grafana-sync/scripts/deduplicate-dashboards-benchmarks.ts:65-75 | One executed run from any database leaves the selected dashboards unique by natural key. |
| DedupTheorems.TwoRunsReachFixedPoint | apps/grafana-sync/scripts/deduplicate-dashboards-benchmarks.ts:267-312 | After two executed runs from any database no duplicates are left, the third run's listings are empty and it changes nothing. |
| DedupTheorems.OneRunSufficesIff | apps/grafana-sync/scripts/deduplicate-dashboards-benchmarks.ts:109-119 | One run leaves benchmarks unique if and only if no two of them differed only by dashboards that duplicate each other. |
| DedupTheorems.OneRunCanLeaveDuplicates | apps/grafana-sync/scripts/deduplicate-dashboards-benchmarks.ts:267-312 | A concrete database on which one run leaves a benchmark duplicate that was not listed. |
| DedupTheorems.DashboardReferenceKept | apps/grafana-sync/scripts/deduplicate-dashboards-benchmarks.ts:146-147 | The dashboard that a merge keeps in place of another survives unchanged, has its natural key and is an oldest selected row of it; outside the filter it is the row itself. |
| DedupTheorems.BenchmarkReferenceKept | apps/grafana-sync/scripts/deduplicate-dashboards-benchmarks.ts:208-209 | The benchmark kept in place of another survives, is an oldest selected row of the same key before the run, and has the key after it that the other would have. |
| DedupTheorems.RunKeepsReferences | apps/grafana-sync/scripts/deduplicate-dashboards-benchmarks.ts:139-237 | If every reference of benchmarks, ds_compare_config and test_runs resolved before a run, every one resolves after it. |
| DedupTheorems.StoredReferencesFollow | apps/grafana-sync/scripts/deduplicate-dashboards-benchmarks.ts:139-237 | For every row of ds_compare_config, test_runs and the surviving benchmarks: its reference is none after a run exactly if it was before; if it named a row, it names a surviving row of the same natural key, no younger than any selected one of it; it is unchanged if no other selected row shared the key or the row was outside the filter. No other field of any row changes. |
| DedupTheorems.OthersLeftAlone | apps/grafana-sync/scripts/deduplicate-dashboards-benchmarks.ts:56-63 | A run deletes no dashboard or benchmark whose system under test is unknown or not the one asked for. |
| DedupTheorems.NoTwoAgree | apps/grafana-sync/scripts/deduplicate-dashboards-benchmarks.ts:65-73 | After one run no two dashboards of the systems asked for agree in system, environment, Grafana instance, uid and label. |
| DedupTheorems.KeysAreColumns | apps/grafana-sync/scripts/deduplicate-dashboards-benchmarks.ts:66-73 | Natural keys are equal exactly if the grouped columns are, NULLs counting as equal. |
| DedupTheorems.BenchmarkGroupsStayValid | apps/grafana-sync/scripts/deduplicate-dashboards-benchmarks.ts:267-312 | For every benchmark group, after the dashboard phase and after all groups before it have been merged, all its rows are still there and of one key. |
| DedupTheorems.RowsRemoved | apps/grafana-sync/scripts/deduplicate-dashboards-benchmarks.ts:142-147 | Each table loses exactly the announced number of rows, the sum of (group size - 1); the referencing tables lose none. |
| Backfill.Run | apps/worker/scripts/backfill-test-run-stats-rollup.ts:90-212 | Under any worker interference: at most ceil(N / batch size) batches, each run served at most once; in live mode every served run is looked up in the queue once, in order, and added exactly if the lookup found no job, enqueued and skipped being those two counts; a dry run asks and adds nothing. It finishes only when every run still missing a half was served; every poll that only waited had counted at least max inflight pending jobs; as sole producer its pending jobs never exceed max inflight - 1 + batch size (or where they started). |
| Backfill.Round | apps/worker/scripts/backfill-test-run-stats-rollup.ts:137-208 | Every round keeps all of these, and either finishes, waits on a counted backlog, or serves one batch. |
| Backfill.ServeBatch | apps/worker/scripts/backfill-test-run-stats-rollup.ts:173-200 | Every id of a batch is marked seen, looked up once and in order, and added exactly if no job was found; none is asked for or added in a dry run; the pending jobs stay within the bound throughout. |
| Backfill.ServeOne | apps/worker/scripts/backfill-test-run-stats-rollup.ts:181-197 | One id: its job is looked up, and added if and only if there is none. |
| Backfill.ServeOneMore | apps/worker/scripts/backfill-test-run-stats-rollup.ts:117-135 | A fresh batch keeps the served batches a partition of the seen ids in which only the last can be short, and only if nothing else was left. |
| Backfill.BatchBound | apps/worker/scripts/backfill-test-run-stats-rollup.ts:47-51 | Served batches over N candidates number at most ceil(N / batch size). |
| SocketManager.Manager.Reconnect | apps/web/lib/socket.ts:250-279 | Clears the remembered timer, gives up at ten attempts, and otherwise arms one timer with the doubled, capped delay. |
| SocketManager.Manager.StartConnecting | apps/web/lib/socket.ts:79-122 | The synchronous part of `connect`, with its three early exits, the missing token and the fresh socket with every persisted listener attached. |
| SocketManager.Manager.Connect | apps/web/lib/socket.ts:79-122 | The same as a step of a run, keeping all that runs keep. |
| SocketManager.Manager.ReapplyPersistedListeners | apps/web/lib/socket.ts:416-423 | Both loops together attach each persisted listener exactly once. |
| SocketManager.Manager.AddListener | apps/web/lib/socket.ts:390-402 | `on` registers the listener and attaches it to a live socket. |
| SocketManager.Manager.RemoveListener | apps/web/lib/socket.ts:404-409 | The returned function unregisters it and detaches one copy. |
| SocketManager.Manager.TearDown | apps/web/lib/socket.ts:294-310 | `disconnect` drops socket and registry and leaves no reconnect timer pending. |
| SocketManager.Manager.OnDisconnect | apps/web/lib/socket.ts:199-207 | After a client disconnect the timers and the log of reconnects are as they were; after any other, one new timer is pending with the delay for the attempts made, or none after ten. |
| SocketManager.Manager.ConnectionOpened | apps/web/lib/socket.ts:162-163 | A resolved `connect` resets the attempts. |
| SocketManager.Manager.ConnectionRefused | apps/web/lib/socket.ts:165-178 | A rejected `connect` ends in the error state with a reconnect scheduled. |
| SocketManager.Manager.ReconnectTimerFires | apps/web/lib/socket.ts:273-278 | A fired timer counts an attempt and connects; still at most ten attempts and one timer. |
| SocketManager.OnKeepsMatchIff | apps/web/lib/socket.ts:390-402 | `on` keeps listeners and registry equal if and only if it does not register a listener again on a live socket. |
| SocketManager.ListenersMatchRegistry | apps/web/lib/socket.ts:294-423 | A live socket has exactly the registry attached, each listener once, at every point of a run, across reconnects, unsubscriptions and teardowns, if and only if every `on` of the run meets no live socket or a listener not yet registered for its event. |
| SocketManager.RegisteredTwice | apps/web/lib/socket.ts:390-402 | Connecting and registering a listener twice ends with it attached twice and registered once. |
| SocketManager.ReconnectsAreBounded | apps/web/lib/socket.ts:250-279 | In every run at most one reconnect timer is pending, attempts and automatic connects since the last success never exceed ten, and the delays of a streak never decrease or exceed the cap. |
| SocketManager.ReconnectIffNeeded | apps/web/lib/socket.ts:165-279 | In every run, after a transport loss the client did not ask for, a connect error, a refused connect, or a connect without a token that would otherwise go ahead, exactly one new timer is pending, of 1000, 2000, 4000, 8000, 16000 and then 30000 ms by the attempts since the last success, and none after ten; nothing else but a fired timer arms one. |
| SocketManager.FiredTimer | apps/web/lib/socket.ts:273-278 | In every run a fired timer is gone and counts as an attempt, and arms the next only if its connect finds no token. |
| SocketManager.ConnectOpens | apps/web/lib/socket.ts:79-122 | A connect opens a socket, with the whole registry attached, exactly if Keycloak is on, no socket is live, no connect is under way and there is a token. |
| SocketManager.RegistryIsLastWord | apps/web/lib/socket.ts:294-410 | In every run a listener is registered for an event exactly if its last `on` came after every unsubscription of it and every `disconnect`. |
| SocketManager.StateAfter | apps/web/lib/socket.ts:162-207 | The connection state after each event. |
| RealtimeHook.Hook.DebounceCallback | apps/web/hooks/useTestRunRealtime.ts:154-171 | The key's old timer is cleared and a new one armed for 300 ms later. |
| RealtimeHook.Hook.HandleEvent | apps/web/hooks/useTestRunRealtime.ts:176-273 | A step of a run, so that all of the following holds of it: a remembered event changes nothing, any other is remembered in a memory of 100 and debounced by kind and test run. |
| RealtimeHook.Hook.TimeoutFires | apps/web/hooks/useTestRunRealtime.ts:163-166 | A due timeout runs its callback with its own payload and removes its key. |
| RealtimeHook.Hook.TearDown | apps/web/hooks/useTestRunRealtime.ts:413-415 | The loop clears the timers the map names, and with that no timeout is left. |
| RealtimeTheorems.MemoryIsLastAccepted | apps/web/hooks/useTestRunRealtime.ts:184-202 | In every run the memory is the ids of the last 100 accepted events, or of all if fewer, in order of acceptance, over all three kinds. |
| RealtimeTheorems.AcceptedIff | apps/web/hooks/useTestRunRealtime.ts:186-189 | After every run an event changes nothing exactly if one of the last 100 accepted events was of its kind and had the same text of test run, dash and timestamp; otherwise it is accepted, with its payload and time. |
| RealtimeTheorems.EventIdsEqualIff | apps/web/hooks/useTestRunRealtime.ts:218 | Two event ids are equal exactly for one kind and one text of test run, dash and timestamp. |
| RealtimeTheorems.OneRunTimestamps | apps/web/hooks/useTestRunRealtime.ts:218 | For one test run these texts are equal exactly if the timestamps are. |
| RealtimeTheorems.NewTimestampIsNew | apps/web/hooks/useTestRunRealtime.ts:218-223 | Where the accepted events of a kind are of one test run, another one of it is new exactly if none of the last 100 accepted ones of the kind has its timestamp. |
| RealtimeTheorems.KeysEqualIff | apps/web/hooks/useTestRunRealtime.ts:228 | Debounce keys are equal exactly if kind and test run are. |
| RealtimeTheorems.CancelsIff | apps/web/hooks/useTestRunRealtime.ts:154-171 | In every run an accepted event is cancelled by later events of its kind and test run and by teardowns, and by nothing else. |
| RealtimeTheorems.OneTimerPerKey | apps/web/hooks/useTestRunRealtime.ts:154-171 | In every run each key has at most one pending timeout. |
| RealtimeTheorems.EveryEventHasOneFate | apps/web/hooks/useTestRunRealtime.ts:154-171 | In every run each accepted event is delivered once, exactly 300 ms later, with its own payload; or cancelled by then and never delivered; or still waiting: exactly one of these. |
| RealtimeTheorems.DeliveredIffNotCancelled | apps/web/hooks/useTestRunRealtime.ts:400-419 | Once its 300 ms are over, an event has reached its callback if and only if no later event of its key and no teardown came before the delivery. |
| JobProgress.Hook.OnProgress | apps/web/hooks/useJobProgress.ts:354-366 | A progress event of the scope is shown unless its job is remembered as completed. |
| JobProgress.Hook.OnCompleted | apps/web/hooks/useJobProgress.ts:369-385 | A completion clears what is shown, remembers the job and arms its 30-second timeout. |
| JobProgress.Hook.FetchActiveJobAnswered | apps/web/hooks/useJobProgress.ts:165-217 | A poll answer, whenever it comes, shows only a job not remembered as completed and never clears what is shown. |
| JobProgress.Hook.ReleaseLockAnswered | apps/web/hooks/useJobProgress.ts:292-306 | A successful release clears progress, error and stuck flag; a failed one changes nothing. |
| JobProgress.CompletedJobNotShown | apps/web/hooks/useJobProgress.ts:188-195 | In every interleaving the job shown is not remembered as completed. |
| JobProgress.RememberedExactlyWhileFresh | apps/web/hooks/useJobProgress.ts:373-379 | A job is remembered, and not shown, as long as no timeout of any of its completions came due since its last completion, and no longer; only a timeout due at that instant leaves it open. |
| JobProgress.HiddenFor30Seconds | apps/web/hooks/useJobProgress.ts:372-379 | A job without another completion in the 30 seconds before is not shown for 30 seconds. |
| JobProgress.RepeatedCompletionForgetsEarly | apps/web/hooks/useJobProgress.ts:376-378 | A concrete run in which a stale poll shows a job 10 seconds after its second completion. |
| JobProgress.ClearedOnlyBy | apps/web/hooks/useJobProgress.ts:165-211 | If something is shown at one point of a run and nothing at a later one, a completed or failed event of the scope or a successful release came in between, whatever polls and timeouts there were. |
| JobProgress.ShownIsLastWord | apps/web/hooks/useJobProgress.ts:165-211 | In every run a job is shown exactly if a progress event of the scope or a poll answer brought it while it was not remembered as completed, and nothing since cleared the display or brought another such job. |
| JobProgress.CompletionsAreLogged | apps/web/hooks/useJobProgress.ts:369-379 | In every run each completed event of the scope that names its job is logged with its time, and the job is remembered at once; nothing else is logged. |
| JobProgress.StuckIff | apps/web/hooks/useJobProgress.ts:423-431 | In every run the job counts as stuck exactly if a stuck event of the scope came after every successful release. |
| JobProgress.ErrorAfter | apps/web/hooks/useJobProgress.ts:354-431 | The error message after each event. |
| CspPatch.ParsePrint | apps/web/scripts/start-server.js:135-143 | Printing then parsing gives a directive list back if and only if it is not empty, names are distinct and without spaces, and no directive contains "; ". |
| CspPatch.PrintParse | apps/web/scripts/start-server.js:186-191 | Parsing then printing gives a header back if and only if no name repeats and no directive is a name and one space. |
| CspPatch.ParseWellFormed | apps/web/scripts/start-server.js:135-143 | Whatever the header, what is parsed from it is such a list. |
| CspPatch.PatchIdempotent | apps/web/scripts/start-server.js:153-191 | Patching twice with one environment is patching once. |
| CspPatch.PatchChangesOnlyTwo | apps/web/scripts/start-server.js:153-184 | Reading the patched header, every directive but frame-src and connect-src has its value and place, these two have the values asked for, and nothing else is there. |
| CspPatch.PatchedValues | apps/web/scripts/start-server.js:153-178 | The two directives set, spelled out: frame-src with the given sources between 'self' blob: and https:, connect-src with API origin, its websocket origin and, if given, the Keycloak origin. |
| CspPatch.WsOriginIs | apps/web/scripts/start-server.js:164 | The websocket origin has ws for a leading http, and is otherwise the same. |
| CspPatch.UnsetIsKept | apps/web/scripts/start-server.js:153-184 | A directive the environment does not ask for keeps value and place, or stays absent. |
| CspPatch.NoSemicolonsClean | apps/web/scripts/start-server.js:96-97 | Environment values without semicolons meet what the two results above require. |
| CspPatch.ParseHeader | apps/web/scripts/start-server.js:135-143 | The loop fills the map that the parser of the round trips describes. |
| CspPatch.PrintHeader | apps/web/scripts/start-server.js:187-191 | The loop builds the header that the printer of the round trips describes. |
| CspPatch.PatchHeader | apps/web/scripts/start-server.js:134-191 | One header is rewritten in place to its patched value, and the flag says whether anything was set. |
| CspPatch.PatchCspHeaders | apps/web/scripts/start-server.js:96-203 | All CSP headers are rewritten, no other one, and the file is written exactly if one was patched. |
| ConfigHash.HashStep | apps/web/lib/config-hash.ts:29-31 | One round of shift, subtract, add and truncate equals one step of the base-31 polynomial modulo 2^32, as a signed 32-bit value. |
| ConfigHash.SimpleHash | apps/web/lib/config-hash.ts:26-37 | For every string, eight hex digits whose value is the absolute value of the polynomial's signed 32-bit residue. |
| ConfigHash.DigestFits | apps/web/lib/config-hash.ts:35-36 | Padding always reaches eight digits and `substring` never cuts one, also for -2^31. |
| ConfigHash.CollisionsExactly | apps/web/lib/config-hash.ts:26-37 | Two strings hash the same if and only if their polynomials are equal or opposite modulo 2^32. |
| ConfigHash.GenerateConfigHash | apps/web/lib/config-hash.ts:9-20 | The filter, sort and member loops hash a text which, for a flat configuration, is a JSON object saying exactly what the configuration says, each key once and in order. |
| ConfigHash.CanonicalIsUnique | apps/web/lib/config-hash.ts:14-15 | There is only one such text for what a configuration says. |
| ConfigHash.VolatileIff | apps/web/lib/config-hash.ts:12 | The fields left out are last_modified_at and config_hash. |
| ConfigHash.TextLeIff | apps/web/lib/config-hash.ts:15 | A key comes before another exactly if it is a prefix of it or has the smaller code unit where they first differ. |
| ConfigHash.SameMeaningSameHash | apps/web/lib/config-hash.ts:11-15 | Flat configurations equal as maps, volatile and undefined members aside, hash the same whatever their key order. |
| ConfigDiff.DiffConfigs | apps/mcp/src/helpers.ts:39-66 | The two loops compute a diff that turns the baseline's last-wins map into the current one, and whose counts add up to the sizes of both maps. |
| ConfigDiff.DiffIsPatch | apps/mcp/src/helpers.ts:48-63 | Dropping the removed keys and setting the changed and added ones turns the baseline map into the current map. |
| ConfigDiff.DiffCounts | apps/mcp/src/helpers.ts:43-66 | Added, changed and unchanged are all current keys; removed, changed and unchanged are all baseline keys. |
| ConfigDiff.DiffSwapped | apps/mcp/src/helpers.ts:39-66 | Swapping the arguments swaps added and removed, in order, and keeps the unchanged count and the changed keys. |
| ConfigDiff.ChangesAreTrue | apps/mcp/src/helpers.ts:52-53 | Each change names a key of both maps with its two different values. |
| ConfigDiff.AddedAndRemovedAre | apps/mcp/src/helpers.ts:48-63 | Added are exactly the last items, value and category as given, of keys only the current list has; removed likewise those only the baseline has. |
| ConfigDiff.ChangedAre | apps/mcp/src/helpers.ts:52-53 | A change is listed exactly if the last items of its key on both sides have its two different values, and the current one its category. |
| ConfigDiff.ByKeyValues | apps/mcp/src/helpers.ts:40-41 | A Map built from a list holds each key once with its last value. |
| Grouping.GroupBy | apps/mcp/src/helpers.ts:361-366 | The has/set/push loop gives each key that occurs its elements in order, no empty group, groups in order of first appearance, and loses nothing. |
| Grouping.GroupsAreMembers | apps/mcp/src/index.ts:288-293 | The same of the groups as a function of the list. |
| AdaptSummary.BuildAdaptSummary | apps/mcp/src/helpers.ts:345-407 | Group counts sum to the total; one non-empty group per dashboard, sorted by count; each shows a dominating top-min(5, size) of its regressions; causal chains are exactly those explained; hypotheses are the first mentions. |
| AdaptSummary.GroupsAreRight | apps/mcp/src/helpers.ts:368-378 | Mapping and sorting the groups keeps all of that. |
| AdaptSummary.GroupCounts | apps/mcp/src/helpers.ts:361-372 | A group counts exactly the regressions that name its dashboard, or none if it is "Unknown". |
| AdaptSummary.GroupShows | apps/mcp/src/helpers.ts:373-376 | It shows name, change and panel of at most five of them, by size of change, and none of those left out changed more. |
| AdaptSummary.LargestGroupFirst | apps/mcp/src/helpers.ts:378 | Groups come by count, the largest first. |
| AdaptSummary.DetectCausalChains | apps/mcp/src/helpers.ts:304-342 | A chain is reported exactly if all its sources regressed, the GC-only one only without container regressions; chains come once each, in the fixed order of the checks. |
| AdaptSummary.CollectHypotheses | apps/mcp/src/helpers.ts:382-389 | Both loops together list every hypothesis once, in order of first mention. |
| AdaptSummary.HypothesesCover | apps/mcp/src/helpers.ts:382-406 | Such a list has no duplicates, covers every regression and every chain, and holds nothing else. |
| Sorting.PrefixDominates | apps/mcp/src/helpers.ts:373-375 | The first k of a sorted list are sorted, with the rest make up the list, and everything left out may follow them. |
| Sorting.SortIsStable | apps/mcp/src/helpers.ts:373-378 | Elements that compare equal keep their order. |
| Sorting.TiedKeepOrder | apps/mcp/src/helpers.ts:177 | Of two elements that compare equal, one stands before the other after sorting if and only if it did before. |
| PerformanceRanking.BuildPerformanceRanking | apps/mcp/src/helpers.ts:148-186 | The items are ranked 1, 2, ..., number what `slice(0, limit)` takes, also for negative limits, and lead the whole list: sorted, with the omitted ones a permutation of all, and dominating them. |
| PerformanceRanking.HighestFirst | apps/mcp/src/helpers.ts:170-177 | The entries come by the figure asked for, the highest first. |
| PerformanceRanking.EntryTells | apps/mcp/src/helpers.ts:154-168 | An entry shows its transaction's own fields; error rate and throughput are the exact rates to half a hundredth, 0 without requests or duration, and impact is total response time to a half. |
| PerformanceRanking.RankedWithinResolution | apps/mcp/src/helpers.ts:154-175 | An entry ranked before another scores at most the rounding resolution less than it, exactly no less for response times. |
| PerformanceRanking.ExactlyRankedIff | apps/mcp/src/helpers.ts:154-177 | The list is ordered by the exact scores if and only if, among transactions of the input whose rounded scores tie, the higher ones come first. |
| PerformanceRanking.OrderIsRanking | apps/mcp/src/helpers.ts:154-177 | Sorting the enriched entries is enriching the sorted transactions. |
| PerformanceRanking.RoundedTiesKeepOrder | apps/mcp/src/helpers.ts:163-177 | For every dimension and duration, two transactions that round to the same score, the first really scoring lower, are listed in that wrong order. |
| PerformanceRanking.SlowerRankedFirst | apps/mcp/src/helpers.ts:154-171 | Such a pair: 1.001 requests a second is ranked before 1.004. |
| Downsampling.Downsample | apps/mcp/src/index.ts:285-315 | Up to 200 points pass unchanged; beyond, each metric keeps every step-th of its points, metrics in order of first appearance, at most 99 per metric. |
| Downsampling.NameOfIs | apps/mcp/src/index.ts:290 | Points are of one series exactly if they name the same metric, those without a name counting as "unknown". |
| Downsampling.KeepEvery | apps/mcp/src/index.ts:297-300 | The stepped loop keeps points 0, step, 2 step, ... and no other. |
| Downsampling.KeptBounds | apps/mcp/src/index.ts:297-300 | Of n points between min(n, 50) and min(n, 99) are kept, all of them exactly if n is below 100. |
| Downsampling.SampleKeeps | apps/mcp/src/index.ts:295-301 | A sampled series begins with the first point, keeps between min(n, 50) and min(n, 99), and is unchanged exactly below 100 points. |

## Left out

- Redis beyond counters and expiries: failing INCR inside MULTI (`|| 0`), key eviction, `reset`, `get`, `getTtl`, and several clocks.
- RateLimiter.WindowBound: one TTL per key; handlers that share a URL with different TTLs are not covered. A request counts at the instant Redis ran its INCR, not when the guard answered.
- RateLimiter.OneWindowBound: likewise assumes one TTL per key.
- RetryAfter.RetryAfterOutlastsWindow: script-only runs, since with the fallback it is false; `RetryAfterIff` has the exact condition in all runs with one TTL.
- FallbackPath.NoScriptRetryCountsOnce: nothing interleaved; `ScriptPath.CountedOnce` has the interleaved case.
- FallbackPath.FallbackMatchesScript: sub-second expiries are in; a live counter is taken to hold at least one hit.
- `getThrottlerConfig`, `getTracker`, `getRequestIP` and `isAuthenticationEndpoint`: branching without state. The guard takes the configuration and key they return; a window that is not skipped is longer than 0 ms, as `getThrottlerConfig` ensures.
- DedupTheorems.TwoRunsReachFixedPoint: every statement of a run is taken to succeed; a missing column or a foreign key of another table can abort one.
- Dedup.Database.Execute: the duplicate queries are described by what they may answer, not executed; one run is not interleaved with other writers.
- The string `count` that the database driver may return, and hence `totalDuplicatesFound` beyond its numeric reading.
- Tables other than benchmarks, ds_compare_config and test_runs that reference a dashboard or benchmark, and their foreign-key actions. The schema in packages/shared/src/database/migrations/schema-sql.ts shows no `benchmark_id` on test_runs; the update is modelled as the script writes it.
- Backfill.Run: observed for a given number of polls, because a queue that never drains keeps the original waiting for ever. BATCH_SIZE and MAX_INFLIGHT are natural numbers; with BATCH_SIZE=0 the original stops at once having served nothing, so what finishing means is claimed for positive sizes. The order of a batch by end time is not modelled, and no new candidates appear.
- Backfill.ServeBatch: the progress lines it logs, with the extra `countPending`, have no effect and are not modelled.
- SocketManager.Manager.StartConnecting: `getWebSocketUrl`, the listeners of `onConnectionStateChange` and `onError`, re-entrancy from them, and events of sockets that a reconnect abandoned. A `disconnect()` during a pending `connect()` is allowed, but what the stale promise then does is the plain resolve or reject step.
- RealtimeTheorems.NewTimestampIsNew: test run ids that contain a dash can make two different events of one kind look alike; `AcceptedIff` has the exact condition.
- RealtimeHook.Hook.HandleEvent: the three handlers are one method that takes the kind of event; polling, subscriptions and filters are not modelled.
- RealtimeTheorems.DeliveredIffNotCancelled: timers fire on time, that is, the clock does not pass a due timeout, and callbacks do not re-enter the hook.
- JobProgress.Hook.FetchActiveJobAnswered: a poll is its answer, at an arbitrary time; `blockingInfo`, `lockInfo` and `loading` are not modelled, and `matchesScope` is a boolean of the event.
- JobProgress.HiddenFor30Seconds: weaker than 30 seconds from every completion, which is false (`RepeatedCompletionForgetsEarly`); `RememberedExactlyWhileFresh` has the exact extent.
- CspPatch.PatchCspHeaders: files, JSON and routes; the headers of all routes are one list of distinct objects. `new URL(...).origin` is a given option for either URL.
- CspPatch.PatchIdempotent: environment values that would bring "; " into a directive are excluded; `NoSemicolonsClean` gives a check for that.
- ConfigHash.SameMeaningSameHash: flat configurations only; a value is the JSON text it serializes to, so nested objects under the array replacer and number formatting are not modelled. How JSON quotes a key is a parameter.
- `isResultStale` and `generateThresholdHash`: single expressions.
- AdaptSummary.BuildAdaptSummary: `classifyMetric` and `inferSourceType` are parameters; the verdict, tracked regressions and classified lists it copies through are left out. Changes are exact numbers, never NaN.
- PerformanceRanking.BuildPerformanceRanking: exact real arithmetic, finite values and whole-number limits.
- `buildComparison`, `buildErrorAnalysis` and the HTTP tools: claims one branch settles.
- React rendering, REST clients, TypeORM entities and module wiring.
