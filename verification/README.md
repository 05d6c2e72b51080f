# A model of the polite web crawler

The crawler consists of a worker service, whose workers share a task queue, a counter of active tasks, a
filter of URLs already seen and a per-domain rate limiter, and a storage service, which keeps a database
of domains and pages, a cache of domains and an index of near-duplicate pages, and feeds sitemap URLs
back to the task queue. This project models both services in Dafny and proves what their code keeps,
over every interleaving and every history.

`dafny verify dfyconfig.toml` verifies the whole project.

## The files

- `CrawlProtocol.dfy`: the crawl as a state machine. Any number of workers, the monitor, the storage service
  and a caller who cancels take turns; each access to the queue, the counter, the filter, the page count
  or the shutdown flag is a step of its own. The storage service may restart, and then begins with an empty
  filter. The counter is a 64-bit word that wraps around.
- `CrawlCounting.dfy`: the counter of active tasks, and where each URL is. `CrawlEnding.dfy`: bounded work,
  shutdown, quiescence. `CrawlTraces.dfy`: concrete runs which show that the conditions are needed.
- `CrawlerCore.dfy`, `TaskQueue.dfy`, `SeenUrls.dfy`: the code of the worker service on mutable state. Each of its
  accesses is paired with a step of the protocol, and between any two accesses the other participants take
  arbitrary steps, so a worker's turn under any interference is a run of the protocol.
- `DomainRateLimiter.dfy`: the limiter. `LimiterRaces.dfy`: calls that read the clock in one step and decide in
  a later one. `LimiterOptimality.dfy`: calls one after the other.
- `Simhash.dfy`, `Utf8.dfy`, `ContentDeduplicator.dfy`: fingerprints and windows down to single bits, the n-grams
  that enter a fingerprint, and the index in place.
- `Database.dfy`, `DomainCache.dfy`, `Storage.dfy`: the tables, the cache, and what the storage service's operations
  do one after the other. `StorageHistory.dfy`: whole lives of a database, with restarts. `CacheRaces.dfy`: operations
  that overlap, as a state machine.
- `CrawlerStorage.dfy`: the code of the storage service on mutable state, each of its accesses paired with an action of
  that machine, with other operations acting in between. `StreamConsumer.dfy`: the consumer of the event stream,
  its pushes paired with steps of the crawl's protocol.
- `Multiples.dfy`, `Selections.dfy`, `Wrappers.dfy`: products and division; what a loop selects from a list; options and
  results.

## Assumptions

- The Redis list is kept by Redis, and nobody else changes it.
- A Redis command or database statement that fails has no effect. Its retries are one outcome, except for
  the three attempts of `push_bulk`, which are modelled.
- The seen filter is a Bloom filter: each URL has a fixed set of positions, and an insertion reports whether
  they were all set before. An insertion request that fails may or may not have reached the filter.
- simhash, lower-casing, the character classes, robots.txt matching, URL parsing and page contents are
  arbitrary deterministic functions or arbitrary answers. A URL is a text with an optional domain, and a
  queued URL may or may not parse when it is popped. A page event's URL parses; the code panics otherwise.
- A tick of the monitor is one step. As the shutdown flag may be set by anyone at any time, a tick that reads and
  then sets it in separate steps gives no further runs. The limiter's answers to workers are arbitrary in the
  protocol; the limiter itself is modelled separately.
- Times and delays are natural numbers. `Instant - Duration` needs a clock that has run for that long, which
  `drl.defaultDelay <= a.now` says of a worker's turn.
- The domain ids in the pages table that a storage service starts on are those of the pages' own hosts, as every
  run of it leaves them.

## Where the code differs from its description

- The repository's README (line 124) has four bands of 16 bits. The code has eight 16-bit windows, one
  starting at each byte, the last with only eight live bits. The model follows the code; four flipped bits
  can spoil all eight windows (`DistanceFourSharesNothing`), so three is the largest distance for which the
  index replaces a linear scan (`IndexIsExactUpToThree`).
- The repository's README (line 126) acknowledges an entry only after a database write. The code also
  acknowledges entries without a payload and near duplicates, neither of which is written; a page's row is
  written exactly if its text is no near duplicate (`SuccessfulPageIsWritten`).
- The stored fingerprints are loaded at a start only if there is a file called like the database. The
  database itself is opened by a name that may be a URL, such as `sqlite://data/crawler.db` or the
  `sqlite::memory:` of the tests, of which there is no file. A start on such a name keeps the fingerprints apart
  if and only if none is stored (`UnloadedIsSeparated`, `UnsafeRestartStoresTwice`).
- The monitor takes a counter of 0 for the end of the crawl. The counter misses batches pushed but not yet
  added and all storage pushes, and keeps tasks whose URL did not parse; `FalseZeros` says exactly when it
  reads 0 too early, and `GapHidesWork`, `StoragePushHidesWork`, `StoragePushWrapsCounter` and
  `LostPopKeepsCounter` are runs in which it misleads.
- The rate limiter spaces the clock readings that calls carry. The moments at which they are granted are spaced up
  to the lag between reading and decision, and no better (`DecisionsSpacedUpToLag`,
  `SpacedGrantsMayBeSimultaneous`). With a delay of zero not even the readings are (`ZeroDelayIsNotSpaced`).
- `await_acquiring` sleeps for the time since the last access instead of the rest of the delay, and then records the
  reading from before its sleep. If that is older than the one recorded, the next grant can come too
  early (`WaitSetsBack`). `SetBackExactly` says when it does no harm: the clock has passed the recorded access by
  the delay, and no request under way carries a reading in between. For whole runs, `SpacedExactly` shows that
  what `SpacingUnderRaces` asks of set-backs is exact.
- At most one call per URL needs a filter that knows the URLs in the system. Without a restart of the storage
  service it holds in all runs if and only if that is so, which for a start means that it is fresh
  (`AtMostOnceExactly`). A resumed queue is fresh if the filter still has its URLs, as after a restart of the worker
  alone, and otherwise not (`ResumedCrawlRepeats`). The storage service is restarted whenever it fails
  (docker-compose.yml, line 29), with an empty filter; each restart allows one more occurrence of every URL
  (`OncePerRestart`), and can bring it about (`RestartsRepeat`).
- A saved domain whose robots.txt does not parse leaves the old entry in the cache
  (`SaveKeepsCoherence`), and a cache fill that races with a save can put an outdated one there
  (`RacingFillIsStale`). Lookups answer as the table does as long as no domain is saved while a reader holds
  another version of its row or, with a robots.txt that does not parse, while it is cached
  (`SafeRunsAreTransparent`); after any other save they can be wrong with nothing left under way to correct them (`UnsafeSaveGoesStale`).

## Model

| member | source | states |
|---|---|---|
| CrawlCounting.CounterConservation | crates/worker_service/src/core/crawler_core.rs:184-247 | in every reachable state the counter plus tasks pushed but not added plus storage pushes equals the queue plus URLs in hand plus pops that did not parse, modulo 2^64 |
| CrawlCounting.TerminationDetection | crates/worker_service/src/core/crawler_core.rs:147-157 | with no batch between push and add and no storage push, the counter reads 0 if and only if the queue is empty and every worker is at the top of its loop, waiting for a URL, or gone without having lost one |
| CrawlCounting.FalseZeros | crates/worker_service/src/core/crawler_core.rs:226-228 | the counter reads 0 with something outstanding exactly when the tasks it misses are as many as those outstanding |
| CrawlTraces.GapHidesWork | crates/worker_service/src/core/crawler_core.rs:226-228 | a run of two workers in which the counter reads 0 between a push and its add while a URL is queued, so that the monitor stops the crawl |
| CrawlTraces.StoragePushHidesWork | crates/storage_service/src/main.rs:118-141 | a run in which the counter reads 0, with no worker busy, while a sitemap URL is queued |
| CrawlTraces.StoragePushWrapsCounter | crates/worker_service/src/core/crawler_core.rs:23-28 | a run in which the counter wraps around below 0 |
| CrawlTraces.LostPopKeepsCounter | crates/common/src/task_queue/task_queue.rs:46-56 | a run that ends with an empty queue, no worker and a counter of 1, which never stops the monitor |
| CrawlCounting.StepMovesCopies | crates/worker_service/src/core/crawler_core.rs:180-251 | a step makes a copy of a URL exactly when the filter admits it, and otherwise only moves copies among queue, hands, batches, calls and named drops |
| CrawlCounting.AtMostOnce | crates/storage_service/src/storage/seen_urls.rs:19-22 | from distinct seeds recorded as seen, under every interleaving, each URL occurs at most once among queue, batches, hands, drops and calls of `process_single_url`, despite requeues and sitemap pushes, and at most once more for each restart of the storage service |
| CrawlCounting.AtMostOnceExactly | crates/worker_service/src/core/crawler_core.rs:61-114 | of any state: no run without a restart of the storage service makes a URL occur twice if and only if each URL in the system occurs once and is recorded as seen; of a start, this means that it is fresh |
| CrawlCounting.OncePerRestart | crates/storage_service/src/storage/crawler_storage.rs:40-46 | from any state: a URL that occurs at most k times, not counting one occurrence if the filter has it, occurs at most k + r times so counted after a run with r restarts |
| CrawlCounting.RestartsRepeat | crates/storage_service/src/storage/crawler_storage.rs:40-46 | the bound is met: from any state, r restarts can bring any URL r further occurrences |
| CrawlTraces.ResumedCrawlRepeats | crates/worker_service/src/core/crawler_core.rs:104-108 | a run on a resumed queue, whose URLs the filter does not know, in which one URL occurs twice |
| CrawlCounting.EverythingAccountedFor | crates/worker_service/src/core/crawler_core.rs:163-168 | once all workers have left, every copy queued at the start or admitted since is queued, was processed, or was dropped by a named branch |
| CrawlCounting.NothingIsLost | crates/worker_service/src/core/crawler_core.rs:209-242 | over any run, from any state, the copies of a URL grow by exactly the times that the filter admitted it |
| CrawlEnding.CallsAreBounded | crates/worker_service/src/core/crawler_core.rs:197-252 | a crawl that stays inside N URLs makes at most N calls of `process_single_url`, and N more for each restart of the storage service, and its page count never exceeds its calls |
| CrawlEnding.ProgressIsBounded | crates/worker_service/src/core/crawler_core.rs:180-251 | by a measure that only a restart of the storage service increases, only a bounded number of steps of a run are other than requeueing or idling |
| CrawlEnding.StepSpends | crates/worker_service/src/core/crawler_core.rs:197-247 | every step other than looking at the flag, the queue, the limiter or a known sitemap, and requeueing, lowers the measure; a restart of the storage service raises it by no more than what doing everything again costs |
| CrawlEnding.ShutdownDrains | crates/worker_service/src/core/crawler_core.rs:140-184 | from any state with the shutdown flag set, each worker starts at most one more call, and the page count grows by at most the number of workers |
| CrawlEnding.Quiescence | crates/worker_service/src/core/crawler_core.rs:147-187 | if every worker left through the pop timeout and the storage service pushed nothing, the queue is empty, the counter is 0 and the next tick stops the run |
| Crawler.CrawlerCore.Start | crates/worker_service/src/core/crawler_core.rs:61-114 | whatever the storage service does meanwhile, a run starts with a counter equal to the part of the queue that the code counted, and with the uncounted part as storage pushes; which URLs are counted, when the start is fresh, also with a filter that an earlier run has filled, and exactly which errors keep a run from starting |
| Crawler.CrawlerCore.Monitor | crates/worker_service/src/core/crawler_core.rs:147-157 | stops if and only if the counter is 0 or there is a page limit and the page count has reached it; the shutdown flag is then set, and otherwise as it was |
| CrawlEnding.TickExactly | crates/worker_service/src/core/crawler_core.rs:147-157 | a tick of the protocol sets the flag in exactly these cases and changes nothing else |
| CrawlEnding.LimitHolds | crates/worker_service/src/core/crawler_core.rs:147-184 | after a tick in any state that has reached the page limit, the page count grows by at most the number of workers, and each worker starts at most one more call |
| Crawler.CrawlerCore.WorkerTurn | crates/worker_service/src/core/crawler_core.rs:180-250 | one turn of the loop, with arbitrary steps of others between its accesses, is a run of the protocol that ends at the top of the loop or in the exit reported. With nobody interfering: when it leaves, and how; a URL refused goes back to the end of the queue and leaves the limiter as it was; one granted is called, leaves the delay revealed and the reading, or that of the wait for a sitemap, and no other entry changed; new links of pages and sitemaps go to the queue unless three attempts fail |
| Crawler.CrawlerCore.Handle | crates/worker_service/src/core/crawler_core.rs:188-247 | under interference, a run of the protocol; alone, a call starts exactly if the limiter grants it, new links or else the refused URL go to the queue, and the limiter is left as `try_acquire` and then the fetch leave it |
| Crawler.CrawlerCore.AskLimiter | crates/worker_service/src/core/crawler_core.rs:197-204 | the call starts exactly if the entry, as it is at that moment, grants it, and the limiter is then as `try_acquire` leaves it |
| Crawler.CrawlerCore.CallLimiter | crates/worker_service/src/core/crawler_core.rs:253-294 | an unknown domain gets the delay revealed and keeps its last access; a sitemap records the reading of its wait and keeps the delay; no other outcome touches the entry, and none any other entry |
| Crawler.CrawlerCore.FilterLinks | crates/worker_service/src/core/crawler_core.rs:209-221 | whatever others ask the filter meanwhile, the links kept are a subsequence of the links, without repeats; unless the storage service restarts, none was known to the filter before and all are after; alone, exactly those whose reply arrived and said new |
| Crawler.AdmittedAreNew | crates/worker_service/src/core/crawler_core.rs:211-221 | the links that the loop admits are a subsequence without repeats of those asked about, even if these repeat, none possibly known before |
| Crawler.AdmittedExactly | crates/worker_service/src/core/crawler_core.rs:211-221 | the links admitted are, in order, exactly those whose reply arrives and of which not all positions were set by then |
| Crawler.BitsAfterExactly | crates/worker_service/src/core/crawler_core.rs:211-221 | positions are set exactly if they were before or belong to a link whose request arrived |
| Crawler.CrawlerCore.PushFiltered | crates/worker_service/src/core/crawler_core.rs:225-242 | the batch is pushed at most once and counted after the push, with others acting in between, and the worker fails exactly if all three attempts do |
| TaskQueues.TaskQueue.PopFront | crates/common/src/task_queue/task_queue.rs:46-56 | takes the oldest entry, also when it then fails to parse; nothing from an empty queue |
| TaskQueues.TaskQueue.PushBulk | crates/common/src/task_queue/task_queue.rs:38-45 | appends the batch in order and reports its length, or does nothing |
| SeenFilter.SeenUrls.InsertUrl | crates/storage_service/src/storage/seen_urls.rs:19-22 | reports whether the URL was possibly present: never no for a URL inserted before |
| RateLimiting.DomainRateLimiter.TryAcquire | crates/worker_service/src/network/domain_rate_limiter.rs:24-43 | a new domain is granted and gets the default delay; a known one is granted exactly if its delay is 0 or has passed since the last access; a grant records the reading, and nothing else changes |
| RateLimiting.DomainRateLimiter.UpdateDelay | crates/worker_service/src/network/domain_rate_limiter.rs:45-54 | a known domain gets the delay and keeps its last access; a new domain gets it and may be accessed at once; nothing else changes |
| RateLimiting.DomainRateLimiter.AwaitAcquiring | crates/worker_service/src/network/domain_rate_limiter.rs:55-71 | sleeps for the time since the last access, records the reading from before, and keeps the delay |
| LimiterRaces.SpacingUnderRaces | crates/worker_service/src/network/domain_rate_limiter.rs:24-71 | from any state and for any interleaving of clock reads and locked decisions: as long as the delay in force is at least D > 0 and no wait sets the last access back while a grant may still come too early, n grants have readings spanning at least (n-1)*D, and the first is at least D after the access recorded before |
| LimiterRaces.SpacedExactly | crates/worker_service/src/network/domain_rate_limiter.rs:24-71 | these conditions are exact: a run that keeps the delay meets them if and only if, from each of its states, every run that meets them keeps the grants spaced |
| LimiterRaces.SetBackExactly | crates/worker_service/src/network/domain_rate_limiter.rs:66-70 | when a wait sets the last access back from L to r, every run from then on that meets the conditions grants only readings from L + D on, if and only if the clock has passed L + D and no request under way has a reading from r + D on but before L + D |
| LimiterRaces.OnTimeExactly | crates/worker_service/src/network/domain_rate_limiter.rs:37-42 | of any state and any moment: no run that meets the conditions grants a reading less than D after it if and only if the access recorded is no older, or the clock has passed it by D and no request under way can be granted with a reading before |
| LimiterRaces.GuardedIsSpaced | crates/worker_service/src/network/domain_rate_limiter.rs:24-54 | so it is if the domain's delay, or the default one of a new domain, is at least D at the start and no call under way or to come sets a lower one or waits |
| LimiterRaces.DecisionsSpacedUpToLag | crates/worker_service/src/network/domain_rate_limiter.rs:25-38 | the moments at which n such grants are decided span at least (n-1)*D less the lag of the first between its reading and its decision |
| LimiterRaces.GrantsInAWindow | crates/worker_service/src/network/domain_rate_limiter.rs:24-71 | under the conditions of `SpacingUnderRaces`, any window of length W holds at most W/D + 1 of the readings |
| LimiterRaces.GrantsOfANewLimiter | crates/worker_service/src/network/domain_rate_limiter.rs:16-54 | spacing and window bound for a new limiter, its default delay at least D |
| LimiterRaces.SpacedGrantsMayBeSimultaneous | crates/worker_service/src/network/domain_rate_limiter.rs:25-30 | the bound of `DecisionsSpacedUpToLag` is met: two grants with readings a full delay apart can be decided at the same moment |
| LimiterRaces.ZeroDelayIsNotSpaced | crates/worker_service/src/network/domain_rate_limiter.rs:37-39 | with a delay of zero, at any time, a later grant can carry an earlier reading |
| LimiterRaces.NewLimiterSpacesExactly | crates/worker_service/src/network/domain_rate_limiter.rs:16-54 | a new limiter of default delay D spaces all runs whose calls keep D if and only if D is not zero |
| LimiterRaces.WaitSetsBack | crates/worker_service/src/core/crawler_core.rs:197-268 | with a delay of 10: a worker is granted at 15 and waits with a reading of 20, another is granted at 25, the wait ends, and a request at 30 is granted |
| LimiterOptimality.GreedyIsOptimal | crates/worker_service/src/network/domain_rate_limiter.rs:24-43 | for a domain with a fixed delay, new to the limiter or not, the limiter grants as many requests as any selection spaced by the delay, from each other and from the access on record, its k-th grant never later than the k-th of the selection |
| LimiterOptimality.GreedyIsSpaced | crates/worker_service/src/network/domain_rate_limiter.rs:37-42 | the grants are themselves such a selection |
| LimiterOptimality.GreedyIsNotTooEarly | crates/worker_service/src/network/domain_rate_limiter.rs:37-42 | and, for a delay that is not zero, no grant comes less than the delay after the access on record |
| Simhash.BandAgreementBound | crates/storage_service/src/storage/content_deduplicator.rs:25-27 | hashes at distance d agree on at least 8 - 2d of the eight windows |
| Simhash.NearHashesShareAWindow | crates/storage_service/src/storage/content_deduplicator.rs:44-59 | hashes at distance at most 3 share a window |
| Simhash.DistanceFourSharesNothing | crates/storage_service/src/storage/content_deduplicator.rs:4-5 | 0 and the hash with bits 8, 24, 40 and 56 set are at distance 4 and share none |
| Simhash.DistanceExactly | crates/storage_service/src/storage/content_deduplicator.rs:50-54 | the distance is the number of bits that differ |
| Simhash.I64RoundTrip | crates/storage_service/src/storage/db.rs:71 | a fingerprint comes back unchanged from the signed column |
| Simhash.I64IsSameModulo | crates/storage_service/src/storage/db.rs:71 | the signed number stored is the same as the fingerprint modulo 2^64 |
| Simhash.ExtractBandIsShift | crates/storage_service/src/storage/content_deduplicator.rs:25-27 | a window, given as a slice of the bits, is the number shifted by eight bits per band and cut to sixteen |
| Utf8.WindowIsWellFormed | crates/storage_service/src/storage/content_deduplicator.rs:40 | a window of an encoded text is valid UTF-8 (section 4 of RFC 3629) if and only if both its ends are character boundaries |
| Utf8.BoundaryExactly | crates/storage_service/src/storage/content_deduplicator.rs:40 | an offset is a character boundary if and only if some number of leading characters encodes to that many bytes |
| Utf8.NgramsAreFourByteRuns | crates/storage_service/src/storage/content_deduplicator.rs:40 | the n-grams that survive are, in order, the runs of whole characters that encode to four bytes |
| Utf8.RunsExactly | crates/storage_service/src/storage/content_deduplicator.rs:40 | a byte sequence is among these runs if and only if it has four bytes and some stretch of whole characters encodes to it |
| Utf8.NgramsAreWindows | crates/storage_service/src/storage/content_deduplicator.rs:40 | the n-grams are the windows at all offsets at which four bytes are well formed, in order |
| Utf8.WellFormedExactly | crates/storage_service/src/storage/content_deduplicator.rs:40 | bytes satisfy the grammar of section 4 of RFC 3629 if and only if they encode some text |
| Utf8.EncodeCarriesNumber | crates/storage_service/src/storage/content_deduplicator.rs:34 | an encoded character has the length that section 3 of RFC 3629 gives it and carries its number, six bits in each byte after the first |
| ContentDeduplication.Hasher.HashOfWholeCharacters | crates/storage_service/src/storage/content_deduplicator.rs:28-43 | with `kept` what is left of a text without all characters that are neither white space, letters nor digits: the fingerprint is that of the four-byte runs of the lower-cased `kept`, or that of the whole text if this encodes to less than four bytes |
| ContentDeduplication.Hasher.SameLettersSameHash | crates/storage_service/src/storage/content_deduplicator.rs:28-43 | texts whose kept characters lower-case alike, to at least four bytes, have one fingerprint |
| ContentDeduplication.Hasher.RejectedChangesNothing | crates/storage_service/src/storage/content_deduplicator.rs:29-33 | putting a rejected character anywhere into such a text leaves its fingerprint as it is |
| ContentDeduplication.IndexIsExact | crates/storage_service/src/storage/content_deduplicator.rs:44-59 | up to distance 3, looking in eight buckets finds a near hash if and only if a linear scan does |
| ContentDeduplication.IndexIsExactUpToThree | crates/storage_service/src/storage/content_deduplicator.rs:6-10 | the index agrees with a linear scan for all contents if and only if the distance is at most 3 |
| ContentDeduplication.ContentDeduplicator.Init | crates/storage_service/src/storage/content_deduplicator.rs:12-24 | each bucket becomes the in-order sublist of the hashes with that window value |
| ContentDeduplication.ContentDeduplicator.Insert | crates/storage_service/src/storage/content_deduplicator.rs:60-68 | the index becomes that of the hashes followed by the text's |
| ContentDeduplication.ContentDeduplicator.IsDuplicate | crates/storage_service/src/storage/content_deduplicator.rs:44-59 | true if and only if a hash within the distance shares a window with the text's, so never without a near hash; up to distance 3, if and only if any hash is within the distance |
| ContentDeduplication.ContentDeduplicator.DebugMaxBucketSize | crates/storage_service/src/storage/content_deduplicator.rs:69-77 | the size of the largest bucket, which is at least one 256th of the hashes |
| ContentDeduplication.RepresentationIsUnique | crates/storage_service/src/storage/content_deduplicator.rs:12-24 | two indexes of the same hashes are equal, however they were built |
| ContentDeduplication.BucketSizesAddUp | crates/storage_service/src/storage/content_deduplicator.rs:60-68 | in each band, every hash is in exactly one bucket |
| ContentDeduplication.LastBandIsCrowded | crates/storage_service/src/storage/content_deduplicator.rs:25-27 | the last band has at most 256 buckets, so some bucket holds a 256th of the hashes |
| StorageHistory.SeparationOverHistories | crates/storage_service/src/storage/crawler_storage.rs:31-48 | through any page events, upserts, failed writes and restarts: all indexed and all stored fingerprints are at all times pairwise more than 3 bits apart, and the stored ones indexed, if and only if every restart loads the rows or finds no fingerprint in them |
| StorageHistory.EventKeepsSeparation | crates/storage_service/src/storage/crawler_storage.rs:126-150 | a single event keeps this exactly if it is no restart, or a safe one |
| StorageHistory.RestartKeepsSeparation | crates/storage_service/src/storage/crawler_storage.rs:32-35 | an index built again from the rows is separated and holds all stored fingerprints |
| StorageHistory.UnloadedIsSeparated | crates/storage_service/src/storage/crawler_storage.rs:36-39 | an index that starts empty is in order if and only if no fingerprint is stored |
| StorageHistory.UnsafeRestartStoresTwice | crates/storage_service/src/storage/crawler_storage.rs:32-39 | after any other restart, a page with the text of a stored one, under another URL, is stored as well |
| StorageHistory.EmptyIsSeparated | crates/storage_service/src/storage/crawler_storage.rs:31-48 | an empty database with an empty index is where a history may begin |
| StorageService.CrawlerStorage.SaveParsedPage | crates/storage_service/src/storage/crawler_storage.rs:126-150 | a near duplicate changes nothing; otherwise the fingerprint enters the index, and the row is written if the database takes it; either way the index then has a hash within distance 3; the foreign key holds |
| StorageService.CrawlerStorage.SaveParsedData | crates/storage_service/src/storage/crawler_storage.rs:49-71 | one event, with lookups and evictions acting between its accesses, is a run of the racing operations; a page that succeeds went through the near-duplicate check and, if new, was written under its own host's id; alone, the answer and the whole new state of each event and error |
| Storage.SuccessIsIndexed | crates/storage_service/src/storage/crawler_storage.rs:126-150 | no event removes from the index, and a page with text that succeeds is within distance 3 of an indexed hash |
| Storage.PageInFields | crates/storage_service/src/storage/crawler_storage.rs:126-150 | a near duplicate leaves index and pages alone; any other text enters the index, also when the write fails; a page written has the title, description, text, domain id and fingerprint of the event |
| Storage.PageEventInFields | crates/storage_service/src/storage/crawler_storage.rs:49-65 | each way in which a page event fails, and what it has then changed; a page is counted exactly if its event succeeds |
| Storage.DomainEventInFields | crates/storage_service/src/storage/crawler_storage.rs:151-171 | the row and the cache entry that a domain event leaves, field by field, and the sitemaps or error it answers with |
| Storage.SuccessfulPageIsWritten | crates/storage_service/src/storage/crawler_storage.rs:142-148 | an event that succeeds leaves the pages alone if it is a near duplicate or a domain; any other page's row then has its title, description, text and fingerprint, and a domain's id |
| Storage.CoherentLookup | crates/storage_service/src/storage/crawler_storage.rs:72-88 | through a cache in step with the table, a lookup answers as without one, except that a hit can do without the database, and leaves the cache in step |
| Storage.LookupInFields | crates/storage_service/src/storage/crawler_storage.rs:72-88 | what a lookup answers and leaves in the cache: the entry, else the row field by field if its robots text parses |
| Storage.CacheIsTransparent | crates/storage_service/src/storage/crawler_storage.rs:72-122 | if stored robots texts parse, after any run of lookups, saves and evictions a lookup answers as one in the domains table would |
| Storage.SaveKeepsCoherence | crates/storage_service/src/storage/crawler_storage.rs:151-171 | a save keeps the cache in step with the table if and only if its robots text parses or the domain was not cached |
| StorageService.CrawlerStorage.GetDomainId | crates/storage_service/src/storage/crawler_storage.rs:72-88 | whatever others do to the cache, the id found is that of the domain's row, and none is found exactly if there is no row; alone, the read-through lookup and the entry it leaves |
| StorageService.CrawlerStorage.CheckIfUrlAllowed | crates/storage_service/src/storage/crawler_storage.rs:89-122 | a run of the racing operations. Under any interference, a URL is allowed only if some version of the domain's row has no robots text or one that permits the path, disallowed only if one forbids it, and of an unknown domain only if there was no row. Alone, each answer exactly if the cached entry, or else the row, says so |
| StorageService.CrawlerStorage.GetDelay | crates/storage_service/src/storage/crawler_storage.rs:172-189 | under any interference the delay of some version, or one second for a domain that had no row; alone, that of the cached entry or else of the row, and which errors |
| StorageService.CrawlerStorage.SaveDomain | crates/storage_service/src/storage/crawler_storage.rs:151-171 | the row gets the event's delay and robots text before this is parsed, so an error leaves the new row and the old cache entry; the sitemaps returned are those of some version of the row, as a reader may have replaced the entry; alone, those of the new one, or none if the entry is evicted at once |
| StorageService.CrawlerStorage.New | crates/storage_service/src/storage/crawler_storage.rs:31-48 | starts on the tables with an empty cache, an empty seen filter, and an index of the stored fingerprints, or an empty index if there is no file called like the database; fails exactly if they are to be loaded and cannot be read |
| CacheRaces.DomainIdsNeverGoStale | crates/storage_service/src/storage/db.rs:114-126 | under any interleaving of fills, evictions, upserts and restarts, a cached id is that of the domain's row, and a page's `dom_id` names the row of its own host and no other |
| CacheRaces.CachedIsSomeVersion | crates/storage_service/src/storage/crawler_storage.rs:80-83 | under any interleaving, a cached entry equals what the domain's row gave at some time |
| CacheRaces.ForeignKeyHolds | crates/storage_service/src/storage/db.rs:56 | the domain id that the consumer is about to write is always that of a row |
| CacheRaces.FillKeepsCoherence | crates/storage_service/src/storage/crawler_storage.rs:80-83 | from a cache in step with the table, a reader's fill keeps it so if and only if the row it read is still the current one |
| CacheRaces.SafeActionsKeepUpToDate | crates/storage_service/src/storage/crawler_storage.rs:151-171 | an action keeps everything cached or on its way to the cache current if and only if it is no save, or one of a domain of whose row no reader holds another version, with a robots text that parses unless the domain is not cached |
| CacheRaces.SafeRunsStayUpToDate | crates/storage_service/src/storage/crawler_storage.rs:72-189 | over a whole run of overlapping operations: all of it is current at all times if and only if every save is safe |
| CacheRaces.RestartIsUpToDate | crates/storage_service/src/storage/crawler_storage.rs:40-46 | a start, on whatever tables, is a state from which safe runs stay current |
| CacheRaces.SafeRunsAreTransparent | crates/storage_service/src/storage/crawler_storage.rs:72-122 | after any such run, however readers interleave, a lookup answers as one in the table, unless the domain's new row is written and not yet cached |
| CacheRaces.UnsafeSaveGoesStale | crates/storage_service/src/storage/crawler_storage.rs:80-83 | any save that is not safe has a continuation, with the consumer idle again, after which every lookup of the domain answers otherwise than the table |
| CacheRaces.RacingFillIsStale | crates/storage_service/src/storage/crawler_storage.rs:176-185 | a read that overlaps a save can leave an outdated entry |
| Database.CrawlerDB.SaveDomain | crates/storage_service/src/storage/db.rs:108-142 | the row gets the delay and robots text, with the id it had or a new one that is larger than all; no other row changes |
| Database.CrawlerDB.SaveParsedPage | crates/storage_service/src/storage/db.rs:65-106 | the URL's row gets the title, description, text, domain id and fingerprint, or none, and no other row changes; it fails without a domain row |
| Database.CrawlerDB.GetCacheInfoAboutDomain | crates/storage_service/src/storage/db.rs:144-187 | the row's id, delay and robots text, if the text parses; nothing for an unknown domain |
| Database.CrawlerDB.GetSimhashes | crates/storage_service/src/storage/db.rs:188-216 | the fingerprints of the rows that have one, in the order listed, or the error of a query that fails in all attempts |
| StreamConsumption.StreamConsumer.HandleNext | crates/storage_service/src/main.rs:114-149 | each entry is processed once and acknowledged only after success, and every acknowledged page with text has a hash within distance 3 of its own in the index from then on |
| StreamConsumption.StreamConsumer.HandleReply | crates/storage_service/src/main.rs:112-151 | the entries of a reply are processed once each and in order, and exactly those that succeed and whose acknowledgement arrives are acknowledged, an error in between notwithstanding |
| StreamConsumption.StreamConsumer.PushSitemaps | crates/storage_service/src/main.rs:118-141 | pushes, in order, the sitemaps that parse, that the filter reports as new and that one of three attempts takes, and records all that parse, as a run of the storage service's steps of the protocol |
| StreamConsumption.PushedAreNew | crates/storage_service/src/main.rs:118-141 | no sitemap is pushed twice, and none that the filter may have known |
| StreamConsumption.PushedExactly | crates/storage_service/src/main.rs:118-141 | the URLs pushed are, in order, exactly those of the sitemaps that parse, of which not all positions were set by then, and of which one of three attempts succeeds |
| StreamConsumption.BitsAfterExactly | crates/storage_service/src/main.rs:118-122 | positions are set exactly if they were before or belong to a sitemap that parses |
| StreamConsumption.StreamConsumer.ProcessStreamEntry | crates/storage_service/src/main.rs:162-176 | entries without a payload succeed and undecodable ones fail, both without effect; an event that succeeds is indexed and, alone, does what the storage does |

## Left out

- StreamConsumption.StreamConsumer.PushSitemaps: the pushes of one entry are not interrupted by workers, because interleavings of both are runs of the protocol, whose steps the pushes are.
- Crawler.CrawlerCore.Handle: `await_acquiring` is one access that takes no time; its sleep is modelled in `LimiterRaces`, where it delays the decision.
- Whether an access let through by `await_acquiring` is itself spaced: it sleeps for the elapsed time instead of the remaining one, so it is not.
- Crawl coverage: the URL that first reveals an unknown domain is not fetched again, so not every page is reached.
- A row for every acknowledged page, and redelivery: the fingerprint enters the index before the row is written, upserts replace rows, and entries that failed are never read again.
- `saved_counter` as a number of rows: it counts near duplicates too.
- The 2^64 wrap-around of the page count.
- The order in which `outbound_links` are sorted: links are only kept free of repeats.
- HTTP, HTML and XML parsing, robots.txt matching, simhash and the Bloom hash functions, gRPC, serde, SQL text, Redis connections, signals, command lines and Docker: I/O or unseen libraries.
- Retries with backoff of the database and of sitemap pushes by their timing, and float details of delays.
