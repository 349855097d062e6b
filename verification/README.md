# plex-mirror, verified

A model in Dafny of plex-mirror, the service that pulls media files from a Plex server to disk,
keeps one `items` table of them, evicts under byte caps, and swaps its configuration and
connections while it runs. The rows of SQL tables are maps, files are byte sequences, the remote
server is any server that keeps to RFC 7233, and whatever the outside decides (a crash, a failed
statement, a cut body, the answer of a probe) is a free choice, so each theorem covers all of them.

`dafny verify dfyconfig.toml` checks everything.

## The parts

- **Downloads** (`Remote`, `Lane`, `Runs`, `Completion`, `CancelRace`, `Cancels`,
  `Engine`). `Lane` is the resumable
  download of one item as a step machine, with one event for each statement, read, write and answer,
  and for what happens from outside. Its invariant is the prefix property. `Runs` puts any number of
  items side by side, with crashes anywhere, and `Completion` says when an interrupted download can
  still finish. `CancelRace` and `Cancels` follow a Cancel, which no guard keeps from a working download:
  the first decides what its unlink does wherever a worker stands, the second the whole Cancel from its
  status read on. `Engine` follows the code, a class whose methods branch and loop as `Download` and
  `fetchOnce` do; each of its effects is recorded as a step of `Lane`, so the theorems hold between any
  two of its statements. (`Engine.OneItem.Queue` is Queue as the download of one item sees it;
  `Queueing.Queue` is the same statement on the whole table.)
- **Generations, reload, reconnect** (`Lifecycle`, `Generations`, `Crews`, `Draining`, `Deadlock`, `Requests`,
  `Reloads`, `Discovery`, `Service`, `Backoff`). `Lifecycle` is a step system of callers, the reconnect
  supervisor, and the workers of any number of generations, over two locks and two waitgroups. A
  sweeper, loop or monitor stays until it is cancelled, unless its interval is zero. `Service` is the
  same reload and reconnect as a class, one call at a time, with the connection it ends on.
- **Eviction** (`Storage`, `Eviction`, `Manager`). What a sweep should take is stated as a shortest
  prefix; the class `Manager` runs the loop.
- **Settings** (`Size`, `Settings`, `SettingsForm`, and saving in `Service`). The overlay, the page
  that shows it, what saving the page stores, and what becomes of the running service.
- **Paths** (`Titles`, `Paths`, `Layout`, `Extensions`, `Placement`, `Guarantees`). The sanitizing loop, lexical
  paths, the layout against the eviction guard, and what layout, settings and eviction promise together.
- **Hierarchy and bulk operations** (`Hierarchy`, `Bulk`, `Queueing`).
- `Basics`, `Text`, `Runes`, `Items` and `Catalog` hold what the parts share.

## What turned out false, and exactly when it is true

- Two items may share a final path. With dotless extensions: two episodes exactly when sanitized show,
  season, episode, shown title and extension agree, two other items exactly when directory, sanitized
  title with its year, and extension agree (`Layout.FinalSameIff`, `Layout.FinalSameFieldsIff`). So a year
  in the field and a year in the title meet (`Layout.YearInTitleCollides`). The run theorems therefore
  assume that no two items ever share a path, and `Placement.ApartIff` says what that takes of the items.
- An extension with separators puts the file elsewhere; without them every file is in place
  (`Layout.FinalInPlaceIff`). It goes on walking from where the plain file would be, and whether the
  guard accepts the result, or the result is someone's partial, is decided by where that walk ends
  (`Extensions.GuardAcceptsIff`, `Extensions.StayingAcceptedIff`, `Extensions.IsPartialIff`); it can do
  either (`Extensions.ExtensionEscapes`, `Extensions.ExtensionMeetsPartial`).
- `sanitize` is not idempotent: it is exactly when the cut at byte 200 leaves no stray bytes other
  than the start of EF BF BD (`Titles.SanitizeIdempotentIff`).
- Queueing a leaf whose row is `evicted` counts it as queued and leaves it evicted
  (`Queueing.QueuedEndsQueuedIff`), although bulk.go:25 describes the count as leaves now queued.
- `Queue` on a finished row is described as changing no state (engine.go:171-173); it rewrites
  `size_bytes`, and with it the usage a sweep acts on (`Completion.RequeueKeepsSizeIff`,
  `Queueing.RequeueMovesUsage`).
- `hard*9` wraps above MaxInt64/9 (`Eviction.NinetyPercentIff`), but the wrapped target is only
  lower, so the fixpoint does not depend on it (`Eviction.SettlesIff`).
- A leaf listed twice is freed once and counted twice (`Bulk.RepeatedLeafCountsTwice`); the bytes
  reported are right exactly when no leaf that frees something is listed again (`Bulk.FreedIsDropIff`).
- Saving the settings page pins every shown value except a blank buffer (`SettingsForm.PinnedIff`);
  settings.go:181-184 says every one.
- Overlapping reloads can leave older settings live than are stored (`Reloads.OverlapPublishesStale`):
  the newest are live exactly when the read behind the last publish came after the last save
  (`Reloads.NewestLiveIff`).
- `Cancel` refuses a downloading row because a worker holds it (cancel.go:14), but reads the status only
  once: the worker may mark the row, and start or go on downloading, before the DELETE and the unlink
  land. It then goes on with an offset into a file that is gone, and a wrong file can be recorded as
  finished. Where the worker must stand for that is `CancelRace.UnlinkCorruptsIff`. Seen from the status
  read, with or without a worker or a partial at that moment, it can happen exactly when a size that the
  row or the worker goes by is smaller than a payload of two bytes or more (zero for unknown), or is
  the true one and the payload is not one byte over and over (`Cancels.CancelCorruptsIff`).
- A sweep that takes one of two ready rows with one path removes the other's file, exactly then
  (`Manager.BackedAfterSweepIff`).
- The engine's retry delay is an unguarded shift (`Backoff.RetryDelayByDefaultIff`,
  `Backoff.RetryDelayVanishes`); five attempts never reach the wrap.
- health.go:14-25 calls the locks never nested; reconnectMu does nest around mu, always in that order
  (`Deadlock.WaitsDown`). It also says mu is never held across I/O, while `resetStaleDownloads` runs
  a statement under it (service.go:417-420); the model keeps the code's order.

## Model

| member | source | states |
|---|---|---|
| `Remote.ContentRangeRoundTrip` | internal/download/engine.go:699-713 | the total a well-formed Content-Range carries is read back exactly, for every int64 total |
| `Remote.UnknownTotal` | internal/download/engine.go:699-713 | a total the server leaves unknown is not read as a number, so the size check is skipped |
| `Remote.StatesTotalIff` | internal/download/engine.go:699-713 | a header states a total exactly when one int64 numeral, with blanks around it at most, follows its first slash |
| `Lane.StepKeepsSound` | internal/download/engine.go:254-553 | every step of Download and fetchOnce, every answer, cut body and short write, and every crash, reset, Queue, eviction, DELETE and unlink of nothing a worker stands by keeps: the partial is a prefix of the payload, the final file is absent or whole, startAt is the length on disk, a ready row names that file and its bytes_done is its length |
| `Lane.HearingKeepsSound` | internal/download/engine.go:464-502 | no status code leads from a sound partial to one that is not; a 416 is taken for completion only with the whole payload on disk |
| `Lane.EndingKeepsSound` | internal/download/engine.go:540-553 | a body that ends cleanly has completed the payload |
| `Lane.FlushTellsTruth` | internal/download/engine.go:528-553 | a progress flush that lands makes bytes_done the length of the partial on disk |
| `Lane.OutsideKeepsSound` | internal/service/cancel.go:21-49 | a crash, the stale reset, Queue and an eviction keep an item sound, and so does the DELETE of a Cancel, whatever the status by then, all in whatever phase a worker is; so does the unlink of a Cancel unless a worker goes by what the partial holds |
| `Runs.PutThenLane` | internal/download/layout.go:49-103 | what one item writes to its row, its partial and any final path of its own is seen by no other item, given that no two items share a path |
| `Runs.ActionKeepsSound` | internal/download/engine.go:254-553 | one step of any item, a crash of the process, or a reset of the table keeps every item sound |
| `Runs.RunKeepsSound` | internal/download/engine.go:254-553 | the same over any interleaving of any length |
| `Runs.CrashSafety` | internal/download/engine.go:281-403 | after any run with crashes between any two steps every path that any download of an item computed, from whatever metadata it fetched, is absent or holds the complete payload, and a ready row points at such a path with bytes_done equal to the length of the file there |
| `Runs.ResumeOffset` | internal/download/engine.go:312-369 | at the head of every attempt startAt is the length of the partial and the partial is a prefix of the payload |
| `Completion.CompletableIff` | internal/download/engine.go:254-419 | from any sound state without a worker a download can still be brought to ready exactly when the declared size is unknown or right |
| `Completion.RecordedSizes` | internal/storage/manager.go:77-91 | the statement that makes a row ready stores the finished file's length in size_bytes and bytes_done, and a positive declared size equals it |
| `Completion.RequeueKeepsSizeIff` | internal/download/engine.go:193-204 | queueing a finished item keeps size_bytes true to the file exactly when the caller declares the file's own length |
| `CancelRace.UnlinkCorruptsIff` | internal/service/cancel.go:35-48 | wherever a worker stands when Cancel, its DELETE done, unlinks the partial: some run from there records a wrong file as finished exactly when that place is exposed, which offset, requests left and declared size decide for a worker that has measured, asks, was answered, has failed or is streaming to the unlinked file |
| `CancelRace.UnlinkCorruptsRequeuedIff` | internal/service/cancel.go:35-48 | the same when the item may be queued again before or after, with the exposure that this adds |
| `Cancels.CancelCorruptsIff` | internal/service/cancel.go:21-49 | from the status read of Cancel on, its DELETE and its unlink landing anywhere between the steps of a worker: some run records a wrong file as finished exactly when the row or the worker goes by a size that is unknown or too small for a payload of two bytes or more, or by the true size of a payload that is not one byte over and over |
| `Cancels.CancelCorruptsRequeuedIff` | internal/service/cancel.go:21-49 | when the item may be queued again meanwhile, exactly for every payload of two bytes or more |
| `Cancels.TameIsSafe` | internal/service/cancel.go:21-49 | with no such size in play no number of Cancels, their DELETEs and unlinks landing anywhere, ever records a wrong file |
| `Cancels.UndeclaredCorruptsIff` | internal/service/cancel.go:21-49 | without a declared size, exactly for every payload of two bytes or more |
| `Engine.OneItem.constructor` | internal/download/engine.go:91-168 | a new item starts sound with nothing on disk, and an engine without a positive number of attempts makes five |
| `Engine.OneItem.Queue` | internal/download/engine.go:178-221 | refuses an item without id or place; else, unless a statement fails, inserts a queued row, or rewrites title, container and size and moves only an error row back to queued |
| `Engine.OneItem.ResetStaleDownloads` | internal/download/engine.go:604-616 | leaves no downloading row |
| `Engine.OneItem.EndBody` | internal/download/engine.go:540-553 | a clean end is success only once synced, every other end is retryable |
| `Engine.OneItem.Append` | internal/download/engine.go:529-539 | one read and write: startAt moves with the bytes written, a short write is retryable |
| `Engine.OneItem.ReadBody` | internal/download/engine.go:518-553 | the copy loop is a run of the step machine and ends with the body fetched or the attempt failing at the reported offset |
| `Engine.OneItem.OnStatus` | internal/download/engine.go:464-502 | what each code leads to: 4xx other than 416 is permanent, 5xx and silence retryable, a 206 permanent only if its total contradicts a declared size, a 416 complete only with a partial that fits, a 200 to a ranged request a restart from nothing |
| `Engine.OneItem.OpenPartial` | internal/download/engine.go:504-516 | an opened partial is empty at offset zero or when there was none, and keeps its bytes otherwise; one that does not open is untouched |
| `Engine.OneItem.FetchOnce` | internal/download/engine.go:436-553 | exactly one request; an answer no retry can mend is permanent, silence and 5xx never are, and undisturbed an answer that carries the file to its end completes it |
| `Engine.OneItem.AfterFailure` | internal/download/engine.go:347-369 | permanent errors are marked, cancellation returns, anything else stats the partial again |
| `Engine.OneItem.Attempt` | internal/download/engine.go:337-369 | one turn of the loop: it stops the download for good only on an answer that no retry follows, and not on silence or 5xx |
| `Engine.OneItem.Attempts` | internal/download/engine.go:337-373 | unless cancelled it gives up early only on such an answer; if the server stays unreachable or in trouble it makes exactly retryAttempts requests; undisturbed it has the file from the first answer that helps within its attempts |
| `Engine.OneItem.CheckSize` | internal/download/engine.go:375-386 | passes exactly when the declared size is unknown or the payload's length |
| `Engine.OneItem.Rename` | internal/download/engine.go:388-393 | moves the whole payload to the final path or leaves both files alone |
| `Engine.OneItem.Publish` | internal/download/engine.go:374-411 | ready only with the complete payload at the final path and its length in the row |
| `Engine.OneItem.Prepare` | internal/download/engine.go:270-326 | startAt is the partial's length, and the row says downloading with that many bytes done |
| `Engine.OneItem.Download` | internal/download/engine.go:254-419 | every outcome of Download: completed means ready with the whole payload in place; undisturbed it completes with the first answer that helps within its attempts, or marks the row with an error; nothing else ever puts anything but the whole payload at the final path |
| `Engine.OneItem.ValidIsSound` | internal/download/engine.go:254-553 | every state the method passes through is one of the machine's sound states |
| `Backoff.HealthDelayExact` | internal/service/health.go:314-328 | the delay before jitter is two seconds doubled per attempt and capped at two minutes, for every attempt number |
| `Backoff.RetryDelayExact` | internal/download/engine.go:562-569 | for any base, the engine's delay before jitter is the true doubling capped at 30 seconds while the doubling fits an int64 |
| `Backoff.RetryDelayByDefaultIff` | internal/download/engine.go:562-569 | with the default base it is exact for every attempt up to 33, for eight later ones whose wrapped shift lies above the cap, and for no other |
| `Backoff.RetryDelayVanishes` | internal/download/engine.go:562-569 | the unguarded shift gives no delay at all from attempt 55 on; no caller outside the tests sets RetryAttempts, so five attempts never get there |
| `Generations.StepKeepsInv` | internal/service/service.go:306-424 | every step of every caller, the supervisor and every worker keeps the invariant on locks, generations, downloads, rows and requests |
| `Generations.KeepsGenerations` | internal/service/service.go:331-367 | all live workers belong to the current generation or the one being spawned |
| `Generations.MoveKeepsGenerations` | internal/service/service.go:331-367 | the same for each move of a reload: cancel, wait, launch, spawn |
| `Generations.WaitKeepsGenerations` | internal/service/service.go:360-367 | once the waitgroup has drained no worker of the old generation is left, downloads included |
| `Generations.RunKeepsInv` | internal/service/service.go:306-424 | the invariant after any run |
| `Generations.OneGeneration` | internal/service/service.go:331-367 | in every reachable state all live workers have one generation |
| `Generations.OneDownloadPerItem` | internal/download/engine.go:647-666 | no two calls of Download ever hold the same item, so none share a partial |
| `Generations.BoundedConcurrency` | internal/download/engine.go:647-666 | at most as many downloads run as the generation they belong to was given |
| `Crews.StepKeepsCrew` | internal/service/service.go:331-357 | every step keeps a generation's slots and its workers those its settings version calls for |
| `Crews.BoundedByConfiguration` | internal/download/engine.go:647-666 | at most the number of downloads that the live settings configure run, over all generations together |
| `Crews.DispatchIff` | internal/download/engine.go:647-666 | a waiting id is dispatched exactly while fewer run, so no slot stays empty |
| `Crews.FullCrew` | internal/service/service.go:331-357 | between reloads of a running process there is one generation, not cancelled, with a sweeper, a monitor, and a loop exactly if the live settings have an engine, but for workers whose interval is zero |
| `Draining.QueuedIsTaken` | internal/download/engine.go:622-691 | from any reachable state of a running process between reloads a queued row can be got under way by the loop and its downloads alone, if there is an engine that polls |
| `Draining.QueueIsServed` | internal/download/engine.go:178-204 | Queue leaves a download in progress alone, and any other row it was called for can then be got under way |
| `Draining.FinishedIsDone` | internal/download/engine.go:622-691 | once a download has recorded its row, as ready or with an error, the item is not taken up again before it is queued again, whatever runs |
| `Draining.EvictedIsDone` | internal/storage/manager.go:147-187 | nor is one evicted while no loop lists it and no download holds it |
| `Generations.NoDownloadLost` | internal/service/service.go:417-424 | a downloading row has a live worker unless its generation is being stopped, nothing is started, or the process is shutting down |
| `Generations.CleanHandover` | internal/service/service.go:417-424 | when a reload resets the table nothing runs, and exactly the downloading rows become queued |
| `Generations.OwnResetIsIdle` | internal/download/engine.go:677-683 | the loop's own reset puts downloading rows back to queued, and after the reload's there is none left for it |
| `Generations.NoRequestLost` | internal/service/health.go:332-369 | every reconnect request ever made is still in the one-slot channel, is held by the supervisor on its way to a reconnect, or is covered by a reconnect that began after it was made |
| `Requests.ReconnectMuReleasable` | internal/service/health.go:503-569 | whoever holds reconnectMu gives it back by steps of its own, of the holder of mu, of the supervisor and of background workers leaving |
| `Requests.RequestServable` | internal/service/health.go:353-370 | from any reachable state of a running process with a request not yet served, the lock holders, the supervisor and background exits alone have a run in which the supervisor begins a reconnect after the request |
| `Deadlock.WaitsDown` | internal/service/health.go:14-25 | every wait goes down the order reconnectMu, mu, worker waitgroup, download waitgroup |
| `Deadlock.NoCycle` | internal/service/health.go:14-25 | the wait-for relation has no cycle in any reachable state |
| `Deadlock.NoDeadlock` | internal/service/health.go:353-370 | a thread in the middle of something can step, or at most four waits away is one that can release what is waited for; a background worker counts only if it can leave, which a sweeper, loop or monitor can only once cancelled |
| `Deadlock.MuReleasable` | internal/service/service.go:360-367 | whoever holds mu gives it back by steps of its own and of background workers leaving, touching no other lock, request or thread |
| `Deadlock.MuAlwaysReleasable` | internal/service/service.go:360-367 | the same from every reachable state |
| `Reloads.PublishesNewestIff` | internal/service/service.go:403-424 | a reload publishes the newest settings exactly when none are saved between its read and its publish, whatever else runs |
| `Reloads.NewestLiveIff` | internal/service/service.go:403-424 | after any run, overlapping or not, the newest settings are live exactly when the read behind the last publish came after the last save, or there was neither |
| `Reloads.SerialReloadsPublishNewest` | internal/service/service.go:403-424 | when no settings are saved or read during another reload, every publish is of the newest settings |
| `Reloads.SerialKeepsFresh` | internal/service/service.go:403-424 | along such a run every reload in flight carries the newest settings |
| `Reloads.OverlapPublishesStale` | internal/service/service.go:403-417 | overlapping reloads have a run that ends idle with older settings live than stored |
| `Discovery.RankConnections` | internal/source/plex/discover.go:274-281 | the result is the stable order by rank |
| `Discovery.FirstRankedIsBest` | internal/source/plex/discover.go:160-175 | taking the first that answers in rank order finds a reachable connection of least rank, of those the one advertised first, and fails only when none answers |
| `Discovery.BestInFields` | internal/source/plex/discover.go:274-297 | said of the fields: the best is the first advertised that answers among the remote direct ones over https; else among the local ones; else among the other direct ones; a relay only if no direct one answers, over https first |
| `Discovery.BestIsOne` | internal/source/plex/discover.go:160-175 | the best connection is unique, so the choice is fully determined |
| `Discovery.SelectServer` | internal/source/plex/discover.go:223-248 | the server selected from the account's resources |
| `Discovery.SelectedIff` | internal/source/plex/discover.go:223-257 | a server is selected exactly when it is the only resource with the role of a server and the wanted name, up to case, or identifier; no match is reported as not found, several with their number |
| `Discovery.ProbeLoop` | internal/source/plex/discover.go:160-175 | the chosen connection is the first that answers or the top-ranked one, and the table says for each whether it was probed and answered |
| `Discovery.Discover` | internal/source/plex/discover.go:102-185 | blank options, a failed resource list, the selection's error, a missing token, no connections: the first met is the error, and without one there is a result, with the selected server's identity, token, chosen connection and probe table |
| `Discovery.GateIff` | internal/service/health.go:571-578 | the reachability gate passes exactly when some advertised connection answers |
| `Service.ChosenLink` | internal/source/plex/discover.go:160-175 | the connection Discover chooses is the best that answers, or the top-ranked when none does |
| `Service.BuildRuntime` | internal/service/service.go:211-243 | a resolved connection is installed verbatim; else the configured URL; else the best connection of the discovered server that answers, or its top-ranked one; and without a find Plex stays off |
| `Service.Service.SeedHealth` | internal/service/health.go:226-259 | Plex is tracked exactly when configured, healthy exactly when its client was built, with the chosen URL and probe table |
| `Service.Service.ReloadWith` | internal/service/service.go:403-428 | succeeds exactly when the settings are valid and a client can be built, and then publishes them and, once started, one new generation; failure changes nothing |
| `Service.Service.Resolve` | internal/service/health.go:524-557 | succeeds exactly when the server is found, has a token, and a connection of it answers, and then with the best; every failure is put on record: a refused token as an auth error, an unknown server as parked, anything else as down |
| `Service.Service.DoReconnect` | internal/service/health.go:503-569 | succeeds exactly when there is a URL or discovery does, and a client can be built; installs the configured URL or the best connection that answers, and one generation once started; every failure leaves runtime and generation untouched |
| `Service.InstalledInFields` | internal/service/health.go:524-569 | a reconnect by discovery installs a connection that answers, direct over https from outside if any such answers, else direct over https, else direct, else over https |
| `Eviction.SweepConserves` | internal/storage/manager.go:249-293 | used before is used after plus the evicted sizes, and used after is what a fresh count finds |
| `Eviction.MarkingFrees` | internal/storage/manager.go:119-128 | flipping any distinct ready rows lowers usage by exactly their sizes |
| `Eviction.SparedAreNewer` | internal/storage/manager.go:209-214 | an evictable row that is spared was completed after every row taken, or with it and has the greater id |
| `Eviction.SweepByCaps` | internal/storage/manager.go:249-315 | a sweep takes nothing within the caps that are set; else no row too many, as without its last victim usage would still be above the soft cap, or nine tenths of the hard one when none is set; and none too few |
| `Eviction.ReportByCaps` | internal/storage/manager.go:189-315 | the report scans all ready rows or none, and gives over the hard cap as the reason exactly when usage was above one |
| `Eviction.SecondSweepTakesNothing` | internal/storage/manager.go:249-293 | a second sweep evicts nothing, for any caps and whatever lies outside the root |
| `Eviction.TargetOrAll` | internal/storage/manager.go:249-293 | a sweep reaches its target or takes every row it may |
| `Eviction.SweepSettles` | internal/storage/manager.go:298-315 | with ordered caps and nothing outside the root, one sweep ends under the caps |
| `Eviction.SettlesIff` | internal/storage/manager.go:298-315 | ordering the caps is exactly what makes one sweep settle every such table |
| `Eviction.NinetyPercentIff` | internal/storage/manager.go:303-309 | the fallback target is nine tenths of the hard cap exactly when nine times the cap fits an int64 |
| `Manager.Manager.UsedBytes` | internal/storage/manager.go:119-128 | the sum of the ready rows' sizes |
| `Manager.Manager.QueryReady` | internal/storage/manager.go:209-236 | the ready rows in order of completion, then id |
| `Manager.Manager.EvictNow` | internal/storage/manager.go:189-294 | evicts exactly the shortest oldest-first prefix of the in-root rows that reaches the target, or all of them, and removes only files below the root; a dry run gives the same report and changes nothing |
| `Manager.Manager.EvictItem` | internal/storage/manager.go:147-187 | refuses an unknown id, and a path exactly when it does not resolve to names below the root; else removes the file and flips the row, whatever its status |
| `Manager.EvictOneFrees` | internal/storage/manager.go:147-187 | evicting one item frees what it counted, and again frees nothing |
| `Manager.GuardIsBelow` | internal/storage/manager.go:158-173 | one eviction goes through exactly for a row without a path, or with one that resolves below the root |
| `Manager.IsBelowIff` | internal/storage/manager.go:319-344 | below means that one or more proper names lead there from where the root resolves to |
| `Manager.SweepStaysBelow` | internal/storage/manager.go:264-270 | and every row and file a sweep takes is below the root in that sense |
| `Manager.UsedAfterWrite` | internal/storage/manager.go:119-128 | writing one row moves usage by its size if it was, and if it is then, ready; an empty table uses nothing |
| `Manager.Manager.RecordReady` | internal/storage/manager.go:63-108 | writes exactly one row, the one of this source and key, as ready with size_bytes and bytes_done alike |
| `Manager.RehearseSweepRepeat` | internal/storage/manager.go:189-294 | a dry run foretells the sweep, and a sweep after the sweep reports nothing |
| `Manager.SparedKeepsFileIff` | internal/storage/manager.go:249-293 | a ready row that a sweep spares keeps its file exactly when it shares no path with a row the sweep takes |
| `Manager.BackedAfterSweepIff` | internal/storage/manager.go:249-293 | if every ready row has its file, every one left has it after the sweep exactly when no spared row shares a path with a taken one |
| `Size.ParseSize` | internal/config/config.go:204-251 | the parser computes its specification |
| `Size.ParseSizeIff` | internal/config/config.go:199-251 | a size parses to v exactly when the text is blank and v is 0, or it writes a number of units whose exact product is v and an int64 |
| `Size.WrittenParses` | internal/config/config.go:236-251 | each written size gives its exact product or the error its number deserves; nothing wraps |
| `Size.SizeWithUnit` | internal/config/config.go:213-251 | a printed number with K, M, G or T, in either case and with a B or not, is that many times 1024, 1024 squared and so on, or too large |
| `Size.SizeReadsPrinted` | internal/service/settings.go:150-172 | what capView and bufferView print is read back, for every byte count |
| `Settings.OverlayCaps` | internal/settings/settings.go:354-367 | the two caps, or the first that does not parse |
| `Settings.OverlayEngine` | internal/settings/settings.go:369-405 | concurrency, poll, buffer and health interval, or the first unacceptable one |
| `Settings.OverlayDirs` | internal/settings/settings.go:407-426 | the three directory names, or the first unusable one |
| `Settings.Effective` | internal/settings/settings.go:329-434 | the first unacceptable setting is reported; otherwise every setting merges on its own terms and the caps are compared |
| `Settings.EffectiveWithinBounds` | internal/settings/settings.go:325-434 | from a valid base: success exactly when every stored value is acceptable and the merged caps are ordered, and then every bound of the loader holds |
| `Settings.EffectiveFields` | internal/settings/settings.go:329-434 | each setting in effect in terms of what is stored for it: texts as stored, caps as their size, the others unless blank, with their bounds |
| `Settings.FineIff` | internal/settings/settings.go:354-426 | which stored values are accepted |
| `Settings.FirstBadIs` | internal/settings/settings.go:354-426 | the problem reported is the first in the order caps, concurrency, poll, buffer, health, directories |
| `SettingsForm.BadgeIsHonest` | internal/service/settings.go:133-144 | while the stored settings are valid the badge says whether a token is in effect, and whether one is unreadable |
| `SettingsForm.SizeOfTrimmed` | internal/service/settings.go:201-205 | blanks trimmed on the way in never change a size |
| `SettingsForm.CapRoundTrip` | internal/service/settings.go:150-158 | a cap shown and stored again is the same cap |
| `SettingsForm.BufferRoundTrip` | internal/service/settings.go:164-172 | a buffer shown and stored again is the same buffer |
| `SettingsForm.SaveUnchangedIsIdentity` | internal/service/settings.go:90-231 | saving the form as shown leaves the effective configuration as it was |
| `SettingsForm.PinnedIff` | internal/service/settings.go:181-184 | after such a save a later environment cannot change the shown settings exactly when a buffer size was stored or the base has one |
| `SettingsForm.FormTakesEffect` | internal/service/settings.go:185-244 | a saved form is what takes effect: texts as typed, sizes and numbers as they read, blank ones as the base has them, and a token as cleared, as given, or as it was |
| `Service.Service.constructor` | internal/service/service.go:137-183 | a service starts on its stored settings over the base, or on the base alone when those are invalid, and always within the bounds |
| `Service.Service.SetMany` | internal/settings/settings.go:224-251 | all values are written, exactly when every write and the commit succeed, or none |
| `Service.Service.ApplySettings` | internal/service/settings.go:185-231 | rejected exactly when the result would be invalid, not stored exactly when the transaction fails, and live exactly when besides a client can be built; then live with exactly what was saved and the connection it resolves to; the running configuration always meets the bounds |
| `SettingsForm.TokenTouchedIff` | internal/service/settings.go:237-244 | a save writes a token exactly when the form clears it or brings a new one |
| `Titles.Sanitize` | internal/download/layout.go:110-146 | the one-pass loop computes its specification |
| `Titles.SanitizedNormal` | internal/download/layout.go:110-146 | no forbidden or control characters, no double spaces, clean ends, at most 200 bytes |
| `Titles.SanitizedBetween` | internal/download/layout.go:110-146 | between clean parts colon and blank become a spaced dash, each forbidden character a dash, a run of white space one blank, a control character nothing, and a byte that is no rune U+FFFD |
| `Titles.SanitizedTrims` | internal/download/layout.go:139-141 | dots and blanks around a clean name are taken off, however many |
| `Titles.LongIsCut` | internal/download/layout.go:142-144 | a clean but long text is cut to exactly 200 bytes and then trimmed |
| `Titles.EmptyOnlyIfUntruncatedIs` | internal/download/layout.go:139-145 | the cut never empties a name |
| `Titles.SanitizeIdempotentIff` | internal/download/layout.go:110-146 | sanitizing twice is sanitizing once exactly when the cut splits no rune, or leaves bytes that begin like U+FFFD's encoding |
| `Titles.SanitizedShape` | internal/download/layout.go:142-144 | a cut name is whole runes and at most three bytes of one more |
| `Layout.CheckDirIff` | internal/config/config.go:185-197 | an accepted directory name is one visible path component without a backslash, and every such name is accepted |
| `Layout.BelowProper` | internal/download/layout.go:49-94 | everything laid out, with an extension free of separators, is a chain of proper names starting with a visible one |
| `Layout.BelowSpelled` | internal/download/layout.go:49-94 | the directories and the file name of movies, episodes and other items, letter by letter, and every error |
| `Layout.ExtensionIs` | internal/download/layout.go:53 | the extension is the container in small letters without one leading dot |
| `Layout.FinalIsUnderRoot` | internal/download/layout.go:49-94 | it resolves to those names below the media root, absolute or relative, where the eviction guard accepts it |
| `Layout.PartialIsUnderRoot` | internal/download/layout.go:99-103 | a partial resolves below .partials |
| `Layout.FinalIsNoPartial` | internal/download/layout.go:99-103 | no final path is any partial path |
| `Layout.PartialSameIff` | internal/download/layout.go:99-103 | two partials share a path exactly when their digests are equal |
| `Layout.FinalSameIff` | internal/download/layout.go:49-94 | two items share a final path exactly when both are episodes with one sanitized show, season, episode and file name, or neither is and directory and file name agree |
| `Layout.FinalSameFieldsIff` | internal/download/layout.go:49-94 | the same field by field when extensions have no dot: the extension, and show, season, episode and shown title, or directory and sanitized title with its year |
| `Layout.YearInTitleCollides` | internal/download/layout.go:60-68 | a movie with its year in the field and one with it in the title share a path |
| `Layout.FinalInPlaceIff` | internal/download/layout.go:53-94 | a file lands under its own name in its own directory exactly when the extension has no separator |
| `Extensions.ExtensionWalks` | internal/download/layout.go:53-92 | with any extension the file is where walking the extension's further components from the plain file's place leads |
| `Extensions.GuardAcceptsIff` | internal/storage/manager.go:319-344 | the guard accepts exactly the walks that end strictly below the root |
| `Extensions.StayingAcceptedIff` | internal/storage/manager.go:319-344 | a walk that never climbs above the root is accepted exactly when it does not end at the root itself, which counting its components tells |
| `Extensions.IsPartialIff` | internal/download/layout.go:53-103 | a final path is an item's partial exactly when the walk ends at its name in the staging directory |
| `Extensions.ExtensionEscapes` | internal/download/layout.go:53-92 | for every kind of item, an extension that climbs past the root puts the file outside it, where the guard refuses it |
| `Extensions.ExtensionMeetsPartial` | internal/download/layout.go:53-103 | and one that climbs to the root and down again is another item's partial, which the guard accepts |
| `Placement.ApartIff` | internal/download/layout.go:49-103 | no two items ever share any file, whatever their metadata becomes, exactly when digests are all different and no fields of two items, at whatever times, lead to one place, which is what the run theorems assume |
| `Paths.UnderRootIff` | internal/storage/manager.go:319-344 | the guard accepts exactly the paths strictly below the root, component by component |
| `Paths.JoinResolves` | internal/download/layout.go:68-102 | joining and then resolving is resolving the root and walking the rest |
| `Paths.AbsJoin` | internal/download/layout.go:68-102 | proper names end up straight below the resolved root |
| `Guarantees.EffectiveDirsOk` | internal/settings/settings.go:407-426 | the directory names in effect are always ones the layout theorems need |
| `Guarantees.PlacedIsInRoot` | internal/storage/manager.go:264-270 | a ready row whose file Final placed is always in root |
| `Guarantees.RunningSweepSettles` | internal/storage/manager.go:189-315 | under any settings Effective accepts, one sweep of downloaded files ends under the caps, frees what it reports and leaves a second sweep nothing |
| `Hierarchy.ListAllChildren` | internal/service/bulk.go:322-335 | the first 200000 children in order, or an error exactly when one of the pages of 200 that are asked for fails |
| `Hierarchy.CollectLeaves` | internal/service/bulk.go:296-318 | ends on any hierarchy, returns the files of the walk, and fails exactly when a page the walk asks for fails |
| `Hierarchy.GatherLeaves` | internal/service/bulk.go:276-293 | the root itself when it is a file, else the files below it, failing exactly when a page asked for fails |
| `Hierarchy.WalkIsPreorder` | internal/service/bulk.go:296-318 | the walk returns exactly the files reachable through shows and seasons within three levels, each position once, in preorder |
| `Hierarchy.ThreeLevels` | internal/service/bulk.go:266-318 | what is gathered is the root if it is a file, else exactly the files among its children, those of its shows and seasons, and those of theirs, in preorder |
| `Bulk.ReadyRows` | internal/service/bulk.go:239-256 | every ready row of the source by key, with its id and size |
| `Bulk.EvictLeaves` | internal/service/bulk.go:168-193 | counts add up; exactly the ready leaves without a path or with one below the root are flipped, only files below the root are removed, the others keep row and count as failed, and the freed bytes are the sizes |
| `Bulk.LeafIff` | internal/service/bulk.go:168-193 | which leaf goes, which is stuck on its path, and which is not there, by row, status and path |
| `Bulk.FreedIsDropIff` | internal/service/bulk.go:189-190 | for any leaves the freed bytes are at least the drop in usage, and equal to it exactly when no leaf that frees something is listed again |
| `Bulk.DistinctLeavesFreeExactly` | internal/service/bulk.go:189-190 | so they are equal for distinct leaves, whatever the sizes |
| `Bulk.RepeatedLeafCountsTwice` | internal/service/bulk.go:189-190 | a leaf listed twice is counted twice |
| `Bulk.SecondPassTakesNothing` | internal/service/bulk.go:173-193 | a second pass over the same leaves evicts nothing |
| `Bulk.PreviewLeaves` | internal/service/bulk.go:198-227 | the preview counts the ready leaves, their sizes and their distinct seasons |
| `Bulk.PreviewForetellsEviction` | internal/service/bulk.go:168-227 | what the preview counts is what the eviction then takes or fails on, in number and in bytes |
| `Bulk.ParentsIff` | internal/service/bulk.go:212-219 | the seasons counted are the parents named by the leaves that count |
| `Bulk.PreviewCountsTheRest` | internal/service/bulk.go:198-227 | the leaves the preview counts and those the eviction skips as absent make up all leaves |
| `Bulk.EvictContainer` | internal/service/bulk.go:158-194 | the whole operation, and for distinct leaves the freed bytes equal the drop in usage |
| `Queueing.Queue` | internal/download/engine.go:178-221 | refuses exactly an item without id or place; otherwise this row is inserted or refreshed and no other changes |
| `Queueing.RequeueMovesUsage` | internal/download/engine.go:193-204 | queueing a ready item moves usage by the difference in sizes |
| `Queueing.Statuses` | internal/service/bulk.go:339-355 | the status of every row of the source by key |
| `Queueing.QueueLeaves` | internal/service/bulk.go:92-112 | queued, skipped and failed add up to the leaves, and every status afterwards is determined |
| `Queueing.LeafTests` | internal/service/bulk.go:88-112 | a leaf is skipped if its row is ready, downloading or queued, fails if it has no id or place, and is queued otherwise; a preview counts it as had if it is ready or downloading |
| `Queueing.QueuedEndsQueuedIff` | internal/service/bulk.go:97-110 | a leaf counted queued ends queued exactly when its row was not evicted |
| `Queueing.SecondPassSkips` | internal/service/bulk.go:88-103 | a second pass skips what the first queued, except leaves stuck as evicted |
| `Queueing.PreviewQueue` | internal/service/bulk.go:118-149 | the preview's counts, bytes and seasons |
| `Queueing.PreviewForetells` | internal/service/bulk.go:135-148 | to queue is queued plus failed plus already waiting, in number and in bytes |
| `Queueing.QueueContainer` | internal/service/bulk.go:77-113 | the whole operation: the three counts each for the leaves of the walk, the bytes of the queued ones, and every status afterwards |

## Left out

- Lane.StepKeepsSound: assumes a payload that does not change, answers that RFC 7233 allows for it, and no unlinking of the partial by anyone but a Cancel, where no worker goes by what it holds; the unlinks that land elsewhere are `CancelRace` and `Cancels`. An item has one worker: after a Cancel and a new Queue the row has a new id, under which the code can start a second download beside the first, and that is not modelled. The first one's statements then hit no row, which the free outcome of each write covers.
- Engine.OneItem.constructor: the refusals of New for a missing store, manager, resolver, root or name, and its other defaults.
- Engine.OneItem.Queue: whether the layout has a place for the item is a parameter here; `Queueing.Queue` decides it.
- CancelRace.UnlinkCorruptsIff: one unlink, after which no other lands, and, without `again`, nobody queues the item; how many attempts a download makes is free until it begins (the runs built take at most three of the default five). An os.Remove that fails leaves a deleted row, which is one of the sound steps.
- Cancels.CancelCorruptsIff: the runs that corrupt have one Cancel; those that never do, in `Cancels.TameIsSafe`, have any number. With an idle item the worker comes after the status read, from the run loop or from a Download asked for by id.
- Engine.OneItem.Download: one object stands for one item's row and two files as one call of Download reaches them; the whole table over many items is in `Runs`, and concurrent calls are in `Lifecycle`. Its final path is the one this call computed; that calls may compute others is in `Runs`. Throughput, logging, the Jellyfin scan and the periods of progress flushes do not appear; whether a flush happens is a free choice. Whether each statement and file operation succeeds, and whether the context is cancelled, is given by an arbitrary function.
- Runs.CrashSafety: needs items that never share a path (`Placement.ApartIff`); the digest in a partial's name is cut to 64 bits, so that two never coincide is an assumption. A file left by a crash between rename and RecordReady, or at an earlier final path, is whole, but no row points at it.
- Generations.StepKeepsInv: statements succeed, Start is called once, one engine serves one source, and rows are queued, evicted and downloaded but not deleted by Cancel. Timers, sleeps and probes are not steps: a worker may act at any time. The leaf locks (healthMu, randMu, the engine's own mutex) guard single steps and do not appear.
- Deadlock.NoDeadlock: which workers have a zero interval and leave at once is a parameter, for every generation.
- Draining.QueuedIsTaken: says that such a run exists, not that a fair scheduler takes it, nor in which order ids are taken; the order of queueing (queued_at) is not modelled.
- Requests.RequestServable: says that such a run exists, not that a fair scheduler takes it.
- Deadlock.MuReleasable: says that mu can be given back without anyone else's help, not that a fair scheduler does it in bounded time.
- The kick channel of the health monitor, the timer of its loop, and `recordObservation`: they only decide when a probe happens.
- Service.Service.DoReconnect: sequential. A monitor launched by a reload before `seedHealth` runs can write the record of a source that is then pruned, or just was (service.go:421-424); the health registry under concurrency is not part of this model.
- Service.Service.SeedHealth: Jellyfin's record, error texts and times are left out.
- Service.Service.constructor: the runtime New builds is a parameter, built by `Service.BuildRuntime`.
- Discovery.RankConnections: the library's stable sort is an insertion sort here. Case folding and the probe are arbitrary functions; fetching and decoding the resource list is its result.
- Manager.Manager.EvictNow: statements succeed and os.Remove always removes; a sum beyond int64, which SQLite refuses, is not modelled, so sizes add up as integers. Two spellings of one path, symbolic links and free disk space are outside the lexical model.
- Manager.Manager.RecordReady: the id of an inserted row is a parameter.
- Settings.Effective: time.ParseDuration and Duration.String are arbitrary functions, which the form theorems assume to undo each other. A setting that is not one of the portal's keys cannot be stored.
- Service.Service.ApplySettings: no other save or reload in between; encryption at rest appears only as a secret that can or cannot be read.
- Layout.ToLower: folds ASCII letters only. `Partial` takes the hexadecimal digest as a parameter, and its being injective is the assumption of `Placement.ApartIff`.
- Paths: slash-separated paths only, and os.Getwd never fails.
- Titles.Sanitize: a Go string is a sequence of runes and stray bytes, which loses nothing; concatenation at the cut never joins stray bytes into a rune.
- Hierarchy.ListAllChildren: a source honours offset and limit, and may fail on any page.
- Queueing.QueueLeaves: which source is downloadable, and the error texts, are left out.
- Backoff.RetryDelayExact: jitter is left out.
- HTTP handlers, views, the MCP tools, the Plex and Jellyfin clients, SQLite and its migrations, scrypt and AES-GCM, the command line, the auth middleware and the token scripts.
