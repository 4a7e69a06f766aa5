# openByte in Dafny

openByte is an HTTP speed-test server in Go with a browser test engine in JavaScript.
This project models the parts of it that carry state over time, concurrency or arithmetic,
and proves what they promise.

| module | what it models |
|---|---|
| `Detectors`, `Metering` | warm-up and early-stop detectors, byte accounting against a shared, moving deadline |
| `UploadWindow`, `UploadHistory`, `DownloadWindow`, `DownloadStream` | one test window with all its streams interleaved, that window told by its events, and the retry loop of a download stream |
| `AdaptiveRamp` | the doubling ramp that picks a stream count |
| `Slots` | the two-level transfer-slot allocator, in atomic steps of any number of requests |
| `RateLimiter` | the two-level token bucket with fractional carry, eviction and a capacity bound |
| `Lifecycle`, `BrowserState`, `UndisturbedRun` | runs and share requests of the browser page, with every `await` a scheduling point |
| `RobustStats` | interquartile filter, medians and jitter |
| `ResultIds`, `Retention`, `ResultStore` | share ids, the cleanup of stored results, saving and reading under a retry budget |
| `CyclicSource` | the cyclic source of download bytes |
| `ClientIP` | the client address behind trusted proxies |
| `Palette` | brand colours, contrast and normalization |
| `Options`, `Reals`, `TestConfig` | shared helpers and constants |

Concurrent protocols are state machines: a `Step` function for one event, a `Run` over any
sequence of events, and theorems about every run. Where the source updates objects in place
there is also a class whose methods are proved against the same `Step` functions. What is
foreign (network, clock, database, entropy, parsers) is a parameter or an event that may come
out either way. Milliseconds, bytes and speeds are exact reals; server times are integers.

Some things one would expect of the code turned out false, or true only under a condition. The
code is modelled as it is, and the exact condition is proved:

* A save can hand out an id without storing anything. On a unique violation the insert returns its
  conflict flag and no error, and `Save` looks at the error first: the id of the row that was
  already there is returned as a success, and the branch that would draw another id is dead, so no
  save ever draws two. `SaveIsHonestIff`: saving is honest in every environment if and only if the
  driver's collision error is not recognised as a unique violation. Which code the driver reports
  is a parameter. Under 2067, the one `isUniqueViolation` accepts, a collision answers with
  somebody else's row (`CollisionHandsOutForeignRow`). Under 1555, which SQLite documents for a
  primary key as this table declares, a collision is an error: nothing is stored and no other id is
  drawn (`PrimaryKeyCollisionFails`).
* An evicted rate-limit bucket is not always neutral. At the call that recreates it, it is worth
  exactly what the kept bucket would be (`EvictedIsFull`), but it forgets the fraction of a token
  left on the kept bucket's clock. `EvictionIsNeutralIff` and, for whole limiters with any rates
  the configuration accepts, `HistoriesAgreeIff`: later calls are answered alike, whatever they are, if and only if that
  remainder is zero. `EvictionChangesAnAnswer` is a history of four calls whose last answer changes.
* The missing-entry guard in the release of a slot is not idle: it is reached exactly for non-empty
  addresses under a policy without a share (`ReleaseGuardsAreIdle`, `MissingEntryIsReached`). An
  empty address returns before it. `NewSpeedTestHandler` sets such a policy; the configuration
  refuses it (internal/config/validate.go:49-51).
* A transfer can be refused while a slot is free, exactly when refused requests that have not rolled
  back yet make up the difference (`RefusalMeansFull`, `RefusedWithEverySlotFree`).
* The abort checks of `startTest` behind `isCurrentRun` are dead: a held signal is never found
  aborted (`HeldMeansCurrent`).

Names in the model table are qualified by module, and by class inside one.

## Model

| member | source | states |
|---|---|---|
| `Detectors.WarmRunInv` | web/speedtest-http-shared.js:172-213 | after any records the closed windows tile the time since the first one, carry non-negative bytes, and an unsettled detector has closed none past the grace period |
| `Detectors.WarmUpLatches` | web/speedtest-http-shared.js:182-183 | once some prefix of the records has settled the detector, no later record changes anything |
| `Detectors.WarmUpConservesBytes` | web/speedtest-http-shared.js:188-195 | bytes in closed windows plus the open window equal all bytes recorded up to and including the settling record |
| `Detectors.UnsettledIsRecent` | web/speedtest-http-shared.js:167-170 | a record that leaves the detector unsettled is less than the grace period plus one window after the first one, in whatever order times arrive |
| `Detectors.SettlesOnStability` | web/speedtest-http-shared.js:197-208 | settling inside the grace period means the last three window speeds are all zero, or all positive and pairwise within a ratio below 1.15/0.85 |
| `Detectors.SteadySpeedSettles` | web/speedtest-http-shared.js:197-208 | three windows in a row at one speed, zero included, always end the warm-up |
| `Detectors.SpeedCountsBits` | web/speedtest-http-shared.js:191-193 | the speed of a window times how long it was open is its bits |
| `Detectors.WarmUpOfWindow` | web/speedtest-http-shared.js:163-213 | the grace period of a test window: what leaves the detector unsettled comes within 30% of the duration, and within 5 s, plus one detector window; what settles it within both is stability |
| `Detectors.WarmUpDetector.Record` | web/speedtest-http-shared.js:182-212 | the mutable detector, which keeps only speeds, follows the specification that keeps the windows |
| `Detectors.EarlyStopIsStable` | web/speedtest-http-shared.js:132-161 | a stop is asked for only at least 1500 ms after the first record and on three positive speeds pairwise within a ratio below 1.05/0.95 |
| `Detectors.SteadySpeedStops` | web/speedtest-http-shared.js:148-158 | three windows in a row at one positive speed always ask to stop |
| `Detectors.EarlyStopConservesBytes` | web/speedtest-http-shared.js:138-159 | early-stop windows hold all bytes recorded, tile the time since the first record, and the detector fires exactly at a record that closes a window and leaves the last three speeds stable |
| `Detectors.EarlyStopDetector.Record` | web/speedtest-http-shared.js:138-159 | the mutable early-stop detector follows its specification, answer included, and ignores everything while the warm-up is unsettled |
| `Metering.MeasuredIntervalBytes` | web/speedtest-http-shared.js:56-72 | a request is never credited with less than nothing or more than its bytes |
| `Metering.MeasuredIntervalSplits` | web/speedtest-http-shared.js:56-72 | the credit adds up over adjacent windows and is the whole request for a request inside the window |
| `Metering.DownloadConserves` | web/speedtest-http-shared.js:28-54 | for tick times in any order, all bytes equal those up to and including the settling tick plus the counted total; the start is the settling tick and the total is zero before it |
| `Metering.DownloadDeadlineAndStartAreFixed` | web/speedtest-http-shared.js:42-49 | later ticks never raise the deadline and never move the start of the measurement |
| `Metering.DownloadStopsEarly` | web/speedtest-http-shared.js:42-49 | over every run of ticks the early-stop detector sees the ticks after the settling one, and the deadline is the least of the initial one and the times of the ticks at which it asks to stop |
| `Metering.UploadProgress` | web/speedtest-http-shared.js:79-119 | where an upload run stands: all bytes are counted, the start is the end of the settling request, the deadline has not risen |
| `Metering.UploadDeadlineAndStartAreFixed` | web/speedtest-http-shared.js:106-118 | along any upload run later requests never raise the deadline and never move the start of the measurement |
| `Metering.UploadStopsEarly` | web/speedtest-http-shared.js:97-113 | over every run of requests the detector sees those with a positive credit and their credited bytes, and the deadline is the least of the initial one and the ends of those at which it asks to stop |
| `Metering.UploadTotalIsOffline` | web/speedtest-http-shared.js:91-112 | the total, accumulated while the deadline was still moving, equals what an observer who knew the final window would count |
| `Metering.UploadTotalAtMostPostSettle` | web/speedtest-http-shared.js:74-78 | the upload total is at most the bytes of requests completed after settling |
| `Metering.ApplyHttpMeasureTick` | web/speedtest-http-shared.js:28-54 | the tick updates counters, detectors and deadline as the specification does, a record that asks to stop lowers the deadline to its own time, and total or all bytes go to the progress callback |
| `Metering.ApplyHttpMeasureIntervalTick` | web/speedtest-http-shared.js:79-125 | the same for a completed upload request, whose credited bytes are what the early-stop detector sees |
| `Metering.WindowFailsIff` | web/speedtest-http-shared.js:10-22 | when a window fails instead of reporting a speed, and which error it raises (network before overload before no streams); a reported speed is the counted bytes over the time from the start of the measurement to the closing or the deadline, whichever is earlier, but at least 1 ms, so closing after the deadline changes nothing |
| `UploadWindow.RoundingIsTight` | web/speedtest-http-upload.js:62-65 | rounding goes up to a whole random chunk and by less than one |
| `UploadWindow.PayloadStaysInRange` | web/speedtest-http-upload.js:67-83 | the payload is whole random chunks: the 1 MiB chunk for windows under 3 s, otherwise from 8 to 64 MiB |
| `UploadWindow.PayloadLastsHalfASecond` | web/speedtest-http-upload.js:74-82 | unless the limits cut it, a payload is what the streams move in half a second at the best speed, rounded up by less than a chunk |
| `UploadWindow.ReadUploadResponseBytes` | web/speedtest-http-upload.js:85-98 | a request is credited with what the server reports if that is between nothing and its payload, and with its payload otherwise |
| `UploadWindow.RunKeepsInv` | web/speedtest-http-upload.js:100-155 | over every interleaving the meter is a function of the completed requests, which arrive in order and are disjoint in time per stream |
| `UploadWindow.TotalWithinMeasuredWindow` | web/speedtest-http-upload.js:157-209 | the counted bytes were all moved inside the measured window, at no more than streams times the rate |
| `UploadWindow.UploadIsNeverInflated` | web/speedtest-http-upload.js:100-216 | for every interleaving of requests, failures, settling and early stops, the reported speed is at most streams times the fastest request |
| `UploadWindow.ReportedSpeedIsOffline` | web/speedtest-http-upload.js:200-216 | for every reachable window the reported speed is exactly the overlap-weighted bytes of requests after settling, over the time from the end of the settling request to the closing or the deadline, which is the least of the initial one and the early stops; closing after the deadline changes nothing |
| `UploadHistory.UploadFollowsHistory` | web/speedtest-http-upload.js:100-178 | over every interleaving log, meter, error flags and rejections are functions of the events that took place; a stream counts its failures in a row and stops exactly when something ended it, a third failure included, or it finds the window closed |
| `UploadHistory.UploadOutcome` | web/speedtest-http-upload.js:193-216 | what the caller gets, from the history alone: the first rejection, else an error exactly when a ramp saw overload or nothing was counted and something went wrong |
| `UploadHistory.ClosedWindowDrains` | web/speedtest-http-upload.js:114-118 | once the deadline has passed or the signal is aborted no request begins, so at most the one each stream had under way is still completed |
| `UploadHistory.StreamsCanAlwaysGoOn` | web/speedtest-http-upload.js:114-154 | a request under way may end in every way, and a waiting stream either begins the next one or leaves, never both at one time |
| `UploadHistory.EveryWindowCanEnd` | web/speedtest-http-upload.js:114-155 | from any state of a window some events stop every stream |
| `DownloadStream.BuildDownloadChunkAttempts` | web/speedtest-http-download.js:23-29 | the sizes tried are the chunk size and every smaller fallback, strictly decreasing |
| `DownloadStream.PlanCount` | web/speedtest-http-download.js:33-63 | at most three requests go out for each size |
| `DownloadStream.PlanTriesAll` | web/speedtest-http-download.js:33-64 | every size before the current one has been tried, so a stream that gives up has tried them all |
| `DownloadStream.PlanNeverGrows` | web/speedtest-http-download.js:33-63 | the sizes of a stream never grow again |
| `DownloadStream.PlanRetriesLosses` | web/speedtest-http-download.js:49-56 | a request repeats the size of the one before if and only if that lost its connection and was not the third in a row to do so |
| `DownloadStream.RunDownloadStream` | web/speedtest-http-download.js:31-65 | every request has the size its predecessors call for and went out on a signal not aborted, each reply is the one received unless it threw on an aborted signal, how the last one ended decides the result, and the error flags record what happened |
| `DownloadWindow.DownloadAccounts` | web/speedtest-http-download.js:85-196 | over every interleaving of read loops with stale clock samples, every byte read is accounted for, the deadline is the least of the initial one and the early stops, and the reported speed is the bytes after settling over the time from the settling read to the closing or the deadline; closing after the deadline changes nothing |
| `DownloadWindow.DownloadFollowsHistory` | web/speedtest-http-download.js:85-178 | over every interleaving the log holds the chunks at the samples taken before their reads, an open window has exactly the reads under way that were begun and have not ended, and the meter counts that log from the deadline and grace period of the duration on |
| `DownloadWindow.StreamsCanAlwaysGoOn` | web/speedtest-http-download.js:135-157 | a stream without a pending read looks at the clock and starts one exactly if the window is open; a pending read may bring any bytes or end |
| `DownloadWindow.ClosedWindowDrains` | web/speedtest-http-download.js:136-157 | once the deadline has passed or the signal is aborted, at most the one pending read of each stream is still counted |
| `AdaptiveRamp.CeilLog2IsLeast` | web/speedtest-adaptive.js:117 | the window bound is the least power of two covering the cap |
| `AdaptiveRamp.MaxWindowsIsLeast` | web/speedtest-adaptive.js:114-117 | a ramp reaches the cap within the windows the progress bar is drawn against, and not within one less |
| `AdaptiveRamp.DoublingStep` | web/speedtest-adaptive.js:88-90 | doubling with the cap visits min(max, 2^k), stalls exactly at the cap, and before that stays below the window bound |
| `AdaptiveRamp.StreamsFitProtocol` | web/speedtest-adaptive.js:18-23 | no window opens more streams than configured, or than six over HTTP/1, and the doubling stalls only there |
| `AdaptiveRamp.BestSetsDuration` | web/speedtest-adaptive.js:81-86 | the measuring window lasts as configured if that is fixed, 3 s if some ramp window reached 10 Gbps, 4 s if some reached 1 Gbps, and as configured otherwise |
| `AdaptiveRamp.BestIsEarliestArgmax` | web/speedtest-adaptive.js:141 | the running best is the earliest fastest window |
| `AdaptiveRamp.RunAdaptiveHTTPTest` | web/speedtest-adaptive.js:105-162 | the ramp ends, its windows double, and the phase reports stay below the bound; each window but the last, after one that moved something, gained at least the threshold, and a ramp that ends below the cap without a window that throws or an abort ends at one that did not; the measuring window uses the streams and duration of the earliest fastest ramp window, also after a window that throws; a failure is passed on only when nothing was measured |
| `Slots.RunIsSafe` | internal/api/speedtest.go:85-161 | under every interleaving the requests past the global check never exceed the maximum and no address exceeds its share per direction |
| `Slots.RefusalMeansFull` | internal/api/speedtest.go:90-97 | in every reachable state: a request is refused globally below the maximum exactly when refused requests still due to roll back fill the gap, with none of those only at the maximum, and per address only at its full share |
| `Slots.RefusedWithEverySlotFree` | internal/api/speedtest.go:90-103 | a run with a maximum of one in which a request is refused although nobody holds the slot |
| `Slots.CountersFollowRequests` | internal/api/speedtest.go:85-161 | over every interleaving the server, deciding on its counters alone, takes the decisions of the protocol on requests, and its counters equal the requests between increment and decrement and the holders of each address |
| `Slots.StepCounts` | internal/api/speedtest.go:85-108 | each atomic step moves one direction's count and one address's count, by one or not at all |
| `Slots.QuiescenceIsEmpty` | internal/api/speedtest.go:101-160 | over every interleaving, when all requests are gone both counters are zero and the table is empty |
| `Slots.ReleaseGuardsAreIdle` | internal/api/speedtest.go:141-157 | over every interleaving a release of a non-empty address finds no entry exactly when the policy sets no share, and an entry found has a positive count |
| `Slots.MissingEntryIsReached` | internal/api/speedtest.go:147-150 | every policy that admits a transfer and sets no share has a run that reaches the missing-entry guard |
| `Slots.SpeedTestHandler.AddAndCompare` | internal/api/speedtest.go:86-90 | the counter keeps equal to the requests between increment and decrement |
| `Slots.SpeedTestHandler.GiveBackCounter` | internal/api/speedtest.go:91-106 | the same for a rollback or the first half of a release |
| `Slots.SpeedTestHandler.TryAcquirePerIP` | internal/api/speedtest.go:110-139 | the table keeps equal to the holders of each address, and the answer is that of the protocol |
| `Slots.SpeedTestHandler.ReleasePerIP` | internal/api/speedtest.go:141-161 | the same for the second half of a release |
| `Slots.SpeedTestHandler.TryAcquireSpeedtestSlot` | internal/api/speedtest.go:85-99 | run alone, a slot is granted exactly when there is room globally and for the address, and a refusal leaves nothing held |
| `Slots.SpeedTestHandler.ReleaseSpeedtestSlot` | internal/api/speedtest.go:101-108 | releasing undoes acquiring |
| `RateLimiter.EarnedCost` | internal/api/ratelimit.go:93-102 | a refill takes at least a rounded-down period per token from the clock, never more than has passed, and leaves less than one more token's time |
| `RateLimiter.RefillKeepsBucket` | internal/api/ratelimit.go:88-103 | tokens stay in range, the clock never passes now and trails by at most one lag |
| `RateLimiter.RefillCarriesRemainder` | internal/api/ratelimit.go:101-102 | unless the bucket overflows, the clock advances by one period per token gained, up to rounding |
| `RateLimiter.PacedCallerIsServed` | internal/api/ratelimit.go:88-100 | a caller who waits one lag between calls always finds a token |
| `RateLimiter.RefillTokens` | internal/api/ratelimit.go:88-103 | a refill keeps tokens in range, brings the clock to within one lag of now, finds a token after one lag, and pays a period of the clock for each token it adds |
| `RateLimiter.RunKeepsLimiter` | internal/api/ratelimit.go:51-86 | over any calls in clock order every bucket stays in range and the table within its capacity |
| `RateLimiter.WindowBound` | internal/api/ratelimit.go:51-103 | in any stretch of time the calls allowed to one address, and in all, exceed the rate by no more than the elapsed time plus one lag pays for, after any history and across evictions |
| `RateLimiter.RefusalSpendsNothing` | internal/api/ratelimit.go:56-81 | a refused call takes no token from any bucket |
| `RateLimiter.AllowTouchesBucket` | internal/api/ratelimit.go:66-85 | a call past the global checks is allowed exactly when its own refilled bucket has a token, costs one there and one globally, and touches no other bucket |
| `RateLimiter.CallFindsLiveBuckets` | internal/api/ratelimit.go:51-86 | the table after a call past the global bucket: if a cleanup is due the buckets used within the TTL, otherwise all, unchanged but for the caller; a known caller is decided by its bucket and a new one is refused exactly when the table of those is full |
| `RateLimiter.TableHoldsLiveBuckets` | internal/api/ratelimit.go:61-86 | over every history a call past the global bucket that finds a cleanup due leaves no bucket idle for the TTL, none is ever left idle for the TTL and a cleanup interval, and a new address is refused for capacity exactly when that many live buckets are in the table |
| `RateLimiter.EvictedIsFull` | internal/api/ratelimit.go:71-78 | a bucket evicted after the TTL and recreated holds the tokens the kept one would after its refill |
| `RateLimiter.EvictionIsNeutralIff` | internal/api/ratelimit.go:106-112 | the recreated bucket never gets ahead of the kept one, on any schedule, if and only if that refill would leave nothing on the clock |
| `RateLimiter.SameLimiterIff` | internal/api/ratelimit.go:66-86 | the limiter that evicted a bucket and the one that kept it are in the same state after the recreating call if and only if that refill leaves nothing |
| `RateLimiter.HistoriesAgreeIff` | internal/api/ratelimit.go:51-112 | for any global rate not below the per-address rate, those two limiters answer every later sequence of calls alike if and only if that refill leaves nothing |
| `RateLimiter.EvictionChangesAnAnswer` | internal/api/ratelimit.go:51-112 | four calls on a new limiter whose last one is allowed with eviction and refused without |
| `RateLimiter.RateLimiter.Allow` | internal/api/ratelimit.go:51-86 | the mutable limiter takes the specified step and gives its answer; past the global bucket it keeps the live buckets alone and refuses a new address exactly when the table of them is full |
| `RateLimiter.RateLimiter.CleanupExpiredIPLimits` | internal/api/ratelimit.go:106-112 | after the loop a bucket is in the table exactly if it was before and has been used within the TTL, and it is unchanged |
| `Lifecycle.RunKeepsInv` | web/openbyte.js:67-228 | what every reachable state keeps: control, fields, posts and links |
| `Lifecycle.RunIsolation` | web/openbyte.js:67-179 | after any events a test runs exactly when there is a controller, the current signal is not aborted and all other unfinished runs' are, and the six displayed results are those the newest run reported |
| `Lifecycle.StaleContinuationWritesNothing` | web/openbyte.js:92-131 | a continuation of a run that is no longer current changes no result, phase, controller or share state |
| `Lifecycle.ShareIsolation` | web/openbyte.js:181-268 | a displayed share id comes from a post of the current generation that carried the displayed results, no generation has two posts open, and links are handed over only for their own generation |
| `Lifecycle.StalePostWritesNothing` | web/openbyte.js:209-227 | an old post that completes late stores no id and leaves the current save promise alone |
| `UndisturbedRun.UndisturbedRunFinishes` | web/openbyte.js:67-156 | a run started in any reachable state, with stale runs, posts and clicks interleaved anywhere and no reset or failure of its own, always has a continuation, takes at most nine, and ends on a results page with the values it reported |
| `UndisturbedRun.UndisturbedShareGetsLink` | web/openbyte.js:181-268 | a share click on any reachable results page without an id, whether it starts a save or joins the one under way, ends in a link of that generation if the post is accepted, whatever is interleaved, unless the generation is over |
| `BrowserState.AppState.PageIsIsolated` | web/openbyte.js:40-179 | the object itself is isolated: a test runs exactly when a controller is held, its signal is not aborted and those of other unfinished runs are, the six numbers of a results page are those the newest run reported, and a share id on it stands for a saved copy of them |
| `BrowserState.AppState.HeldMeansCurrent` | web/openbyte.js:49-51 | comparing signals by identity is asking whether the run is current, and a held signal is never found aborted |
| `BrowserState.AppState.StartTest` | web/openbyte.js:67-90 | refused while running or offline, changing nothing; otherwise the page is cleared and holds a fresh, unaborted signal |
| `BrowserState.AppState.ResetToIdle` | web/openbyte.js:158-178 | the held signal is aborted and nothing of the run is left on the page |
| `BrowserState.AppState.AfterLatency` | web/openbyte.js:92-102 | a run that lost the signal changes nothing on the page; the current one shows latency and jitter, or that there are none, and goes on to the download |
| `BrowserState.AppState.AfterFrame` | web/speedtest.js:190-191 | nothing on the page changes, and the transfer starts exactly when the signal is not aborted |
| `BrowserState.AppState.AfterWorker` | web/speedtest.js:237-254 | the page changes only without a probe, for the current run and a result |
| `BrowserState.AppState.AfterProbe` | web/speedtest.js:251-265 | an overtaken run shows nothing; the current one shows the loaded latency of its direction |
| `BrowserState.AppState.AfterDownload` | web/openbyte.js:110-119 | an overtaken run changes nothing; the current one shows the download and goes on to the upload |
| `BrowserState.AppState.AfterUpload` | web/openbyte.js:127-155 | an overtaken run changes nothing, its signal included; the current one shows the results with no share id and ends, or resets the page if rendering throws |
| `BrowserState.AppState.AfterCatch` | web/openbyte.js:138-155 | an overtaken run is silent; the current one resets the page and aborts its signal |
| `BrowserState.AppState.HandleShare` | web/openbyte.js:248-262 | off the results page nothing happens; a link handed over stands for a saved copy of what is on display; at most one save is started |
| `BrowserState.AppState.AfterPost` | web/openbyte.js:205-218 | an answer for another generation or off the results page leaves the page alone; an id it stores stands for a saved copy of what is on display |
| `BrowserState.AppState.ClosePost` | web/openbyte.js:221-227 | a post clears its own promise and never another one |
| `BrowserState.AppState.AfterSave` | web/openbyte.js:262-269 | a waiting click hands over a link only on the results page of its own generation, and it stands for what is on display |
| `RobustStats.SortSorts` | web/speedtest.js:270 | sorting is ascending and a permutation |
| `RobustStats.RankIsUnique` | web/speedtest.js:270-272 | one value alone has a given rank, counted as how many samples are below and above it |
| `RobustStats.QuartilesByCounting` | web/speedtest.js:270-272 | quartiles and median by counting: each is a sample, with at most n/4, n/2 and 3n/4 samples below it and all but one of the rest above |
| `RobustStats.KeepIsSubsequence` | web/speedtest.js:276 | the filter returns exactly the samples within the fences, in their order |
| `RobustStats.FilterKeepsWithinFences` | web/speedtest.js:268-277 | below four samples the filter keeps all, otherwise exactly those within one and a half interquartile ranges of the quartiles found by counting, in their order |
| `RobustStats.SortKeepCommute` | web/speedtest.js:419-423 | sorting what was kept is keeping from what was sorted |
| `RobustStats.KeptStretch` | web/speedtest.js:268-277 | from the sorted samples the filter keeps a contiguous stretch around both quartiles |
| `RobustStats.MedianIsRobust` | web/speedtest.js:268-277 | of four or more samples at least half are kept, and the reported median, at most half the kept samples below it and fewer above, lies between the raw quartiles |
| `RobustStats.ComputeJitter` | web/speedtest.js:298-305 | the loop computes the mean step between neighbours |
| `RobustStats.JitterIsMeanStep` | web/speedtest.js:298-305 | jitter is the mean step: one step for two samples, and the steps of a sequence are those up to any sample and those from it on |
| `RobustStats.JitterIsRobust` | web/speedtest.js:298-305 | the reported jitter is at most four interquartile ranges, whatever the outliers are |
| `RobustStats.LatencyIsRobust` | web/speedtest.js:412-423 | a latency is reported exactly when a ping succeeded; idle and loaded medians have their rank among the kept samples by counting and lie between the raw quartiles |
| `ResultIds.GenerateID` | internal/results/store_id.go:14-35 | the id is the first eight bytes below 248 of the entropy stream, wherever its blocks fall, and generation fails only if the source does first |
| `ResultIds.GeneratedIdIsValid` | internal/api/results_handler.go:151-166 | every generated id passes the handler's check |
| `ResultIds.PreimagesAreExact` | internal/results/store_id.go:23-28 | the listed byte strings are exactly those the sampler maps to an id |
| `ResultIds.IdsAreUnbiased` | internal/results/store_id.go:15-35 | every valid id is spelled by exactly 65536 accepted byte strings |
| `Retention.OutranksIsStrictOrder` | internal/results/store_cleanup.go:34 | newest first, then greatest id, is a strict total order |
| `Retention.TrimKeepsTheBest` | internal/results/store_cleanup.go:27-36 | trimming keeps the maximum number of rows, unchanged, each outranking every row that went |
| `Retention.CleanupKeepsTheNewest` | internal/results/store_cleanup.go:16-48 | after a cleanup the table holds the greatest rows among those not older than the cutoff |
| `Retention.CleanupIsDetermined` | internal/results/store_cleanup.go:16-48 | no other table meets that description |
| `Retention.CleanupIsIdempotent` | internal/results/store_cleanup.go:16-48 | a second cleanup with the same cutoff changes nothing |
| `ResultStore.DelayIsCappedDoubling` | internal/results/store_crud.go:166-171 | the delay is 25 ms doubled per attempt and capped at 250 ms, the cut-over lying where doubling passes the cap |
| `ResultStore.BusyErrors` | internal/results/store_crud.go:85-101 | which errors are retried, driver codes 5 and 6 or a message naming the lock in letters of either case, and which are unique violations |
| `ResultStore.Store.WaitForBusyRetry` | internal/results/store_crud.go:134-164 | a wait lets the caller retry strictly before the deadline and after the full back-off, or ends the operation; it never sleeps past the deadline, nor at all once the context is done |
| `ResultStore.Store.InsertResultWithRetry` | internal/results/store_crud.go:49-83 | no error and no conflict means the row is new, a conflict comes without an error and changes nothing, the loop ends, and its waits follow the back-off, all but the last in full, and fit before the deadline |
| `ResultStore.SaveOutcome` | internal/results/store_crud.go:24-47 | a save adds the row of the id it returns if that id was free; it returns a taken id exactly as a recognised collision leaves it, with the table unchanged; it never runs out of ids |
| `ResultStore.SaveIsHonestIff` | internal/results/store_crud.go:24-91 | every save that returns an id has stored the result under it, in every environment whose database reports unique violations for taken ids only, if and only if the collision error is not recognised as a unique violation |
| `ResultStore.CollisionHandsOutForeignRow` | internal/results/store_crud.go:38-43 | a concrete save that returns the id of another row and stores nothing |
| `ResultStore.PrimaryKeyCollisionFails` | internal/results/store_crud.go:69-91 | under code 1555 a collision is an insert error, the table is unchanged and the save is over |
| `ResultStore.Store.Save` | internal/results/store_crud.go:24-47 | what a caller gets: a new row under a free id, or the untouched table under a taken one; one id, one 20 s budget for all waits, and why each failure happens |
| `ResultStore.Store.Get` | internal/results/store_crud.go:103-132 | a row found is the stored one and a row reported missing is not stored; busy answers are retried along the back-off until the budget is spent or the context ends, and no others are |
| `ResultStore.Store.SaveThenGet` | internal/results/store_crud.go:24-132 | what is read under the id of a save is what was saved if the id was free, and the row that had the id if it was taken |
| `ResultStore.Store.ExecWithBusyRetry` | internal/results/store_cleanup.go:50-77 | a statement takes effect once or not at all, within the budget, and busy answers alone are retried, along the back-off, until it is spent |
| `ResultStore.Store.Cleanup` | internal/results/store_cleanup.go:16-48 | the two deletions fail independently, and when neither fails the table is the cleaned one |
| `CyclicSource.CycleAppend` | internal/api/speedtest_download.go:69-73 | consecutive stretches of the repeated source join up |
| `CyclicSource.WriteChunkFromSource` | internal/api/speedtest_download.go:45-76 | exactly the chunk size is written, from the repeated source at the offset, which stays in range; a failed write leaves a front of it; the branch for nothing to write is dead |
| `CyclicSource.StreamDownload` | internal/api/speedtest_download.go:9-43 | however many chunks go out, byte k of the response is source[k mod len]; the stream ends at the first clock reading past the deadline, a lost client or a failed write, and is flushed every eighth chunk |
| `ClientIP.SplitJoined` | internal/api/clientip.go:65-76 | splitting at commas distributes over joining |
| `ClientIP.HeaderForms` | internal/api/clientip.go:130-144 | an address in a header is read with a port, in brackets or bare, after trimming, and empty text names nobody |
| `ClientIP.ScanFindsLast` | internal/api/clientip.go:58-60 | the scan answers with the last field that names somebody outside the trusted networks, and with nobody only if none does |
| `ClientIP.ClientIPResolver.RightmostUntrustedIP` | internal/api/clientip.go:61-84 | the right-to-left loop answers as splitting and scanning would |
| `ClientIP.PrependedTextIsIgnored` | internal/api/clientip.go:58-60 | once the header names a client, no text in front of it changes the answer |
| `ClientIP.ForwardedFields` | internal/api/clientip.go:58-60 | what the hops append are fields of their own, in the order of the hops |
| `ClientIP.ForgedHeaderIsIgnored` | internal/api/clientip.go:58-60 | a client behind any chain of trusted hops is recognised, whatever it wrote into the header itself |
| `ClientIP.ClientIPResolver.FromRequest` | internal/api/clientip.go:35-56 | headers count only from a trusted proxy, and a forwarded-for header rules out the other one |
| `ClientIP.ClientIPResolver.IsTrustedProxy` | internal/api/clientip.go:86-96 | trusted means inside one of the networks |
| `ClientIP.NetworksOfEntries` | internal/api/clientip.go:98-117 | every entry is empty, names one network or is invalid, and the networks of a list are those of its parts in order |
| `ClientIP.ParseTrustedProxyCIDRs` | internal/api/clientip.go:98-117 | the networks are those named, in order, and something is reported invalid exactly when an entry names none |
| `ClientIP.ClientIPResolver.constructor` | internal/api/clientip.go:17-33 | one malformed network turns the trust in headers off |
| `Palette.ParsesDigitPairs` | internal/config/branding.go:166-179 | a colour parses exactly when it is '#' and six hexadecimal digits, each channel being its own two |
| `Palette.ParseInvertsHex` | internal/config/branding.go:226-228 | parsing inverts writing, for every colour |
| `Palette.HexOfParsedIsLower` | internal/config/branding.go:166-179 | writing a parsed colour lower-cases what was parsed |
| `Palette.MixStaysBetween` | internal/config/branding.go:191-198 | a mix lies between its inputs, within half a step of the exact blend, and reaches both ends |
| `Palette.LuminanceInUnit` | internal/config/branding.go:215-224 | luminance is in [0, 1], 0 for black and 1 for white |
| `Palette.ChannelCurve` | internal/config/branding.go:216-222 | the curve of a channel: linear up to 10 of 255, the power above |
| `Palette.LuminanceShares` | internal/config/branding.go:223 | luminance is the sum of the channels, with shares 0.2126, 0.7152 and 0.0722 |
| `Palette.ContrastIsSymmetric` | internal/config/branding.go:209-213 | contrast is symmetric and from 1 to 21 |
| `Palette.OnBrandIsReadable` | internal/config/branding.go:200-207 | black or white on a brand colour always reaches 4.5:1 and is the better of the two |
| `Palette.AcceptsReadablePairs` | internal/config/branding.go:91-164 | which settings are accepted, both directions, and that the palette shows them in lower case |
| `Palette.RejectsTheFirstFault` | internal/config/branding.go:91-164 | the error names the first setting at fault, half pairs first, then primary before secondary and dark before light |
| `Palette.PaletteTints` | internal/config/branding.go:118-139 | the translucent colours of an accepted palette, each only where its colour is set |
| `Palette.PaletteTextIsReadable` | internal/config/branding.go:181-189 | in an accepted palette the text on the primary colour is readable and the hover colour is the primary mixed towards white or black |
| `Palette.NormalizingIsIdempotent` | internal/config/branding.go:75-89 | normalizing keeps palette and errors, lower-cases each colour, and doing it again changes nothing |
| `Palette.Config.NormalizeBrandColors` | internal/config/branding.go:75-89 | an error leaves the settings alone, success makes them canonical |

## Left out

- Fetch, stream readers, web workers, HTTP deadlines, TLS and routing: their outcomes are events or parameters.
- DOM rendering, the progress bar, the live speed display, history, themes and toasts: user interface.
- `createUploadPayloadBlob` and its cache: only the payload size matters to the accounting.
- `resolveAdaptiveConfig` and protocol detection: query-string and browser parsing; the clamped configuration is a parameter.
- A throughput bound for download: clock samples are taken before the read they account for, so the upload argument does not carry over; conservation and draining are proved instead.
- Floating-point rounding: measurement uses exact reals, the rate limiter exact products that are then floored.
- Integer overflow of counters and durations: integers are unbounded.
- In-place sorting of the median samples: the sort is a function with its own correctness lemma.
- The pings of `measureLatency`: their round-trip times are the input.
- Share ids: an id is named by the post that obtained it; that the server's ids are unique is the subject of `ResultStore`.
- Pointers as map values: an address's bucket or counts are stored back under its key instead of updated through a pointer, so aliasing is not captured.
- The optional last argument of the tick functions: every caller passes it, so its absence is not modelled.
- `Lifecycle.RunIsolation`: network information and the progress fields of the state are not part of it; the six result fields are one record whose values are tagged with the run that wrote them.
- SQLite itself, its connection pool and other writers during a save, a read or a cleanup: a statement takes effect once or not at all on an abstract table.
- `ResultStore.Store.Cleanup`: the row counts it logs are not modelled, and its context, which never ends, may be done here too.
- Entropy quality and probability: preimage counts are proved instead; for termination the source must fail or deliver eight accepted bytes at some point.
- `CyclicSource.StreamDownload`: write deadlines are not modelled, and the clock must pass the deadline at some reading.
- `ClientIP.ClientIPResolver.RightmostUntrustedIP`: requires of the library that trimming the empty string leaves it empty.
- Parsing of addresses, networks and host-port pairs: library calls taken as parameters.
- The alpha value in CSS colours is kept as a number, not as text, and the power function of the luminance curve is any function that maps the unit interval into itself and 1 to 1.
- The brand logo, environment parsing, range checks of the configuration and the upload handler's body reading: easy or foreign.
