# flowcore data pump — a Dafny model

The flowcore data pump reads events of one flow type of a Flowcore data core. It walks the hour
"time buckets" of the event store from a starting point up to the present hour and then stays
live. The events go into a bounded in-memory buffer. Consumers reserve (pull) events from the
buffer. A reserved event is then acknowledged, which removes it, or failed, which gives it up and
reports it. A reservation that stays open too long is reopened by a timer, up to a maximum
number of deliveries; after that its events are given up as failed. Progress is checkpointed as
a cursor (time bucket plus event id) through an optional state sink.

The repository holds two generations of the engine, and this project models both:

- the newer `FlowcoreDataPump` (`src/data-pump/data-pump.ts`), together with its data source
  `FlowcoreDataSource` (`src/data-pump/data-source.ts`), which caches name-to-id translations and
  walks the time-bucket listing;
- the older `DataPump` (`src/lib/data-pump.ts`), which keeps its own listing of buckets and adds
  the bucket of "now".

Modules:

| module | file | what it holds |
|---|---|---|
| `Wrappers` | wrappers.dfy | `Option`, `Result` |
| `Events` | events.dfy | events, cursors |
| `Buckets` | buckets.dfy | bucket keys, `parseFloat` on keys, JavaScript string order, closest/next bucket search, the paged listing |
| `BufferItems` | buffer_items.dfy | buffer items and the reservation and removal scans both generations share |
| `Pump` | pump.dfy | the newer engine: reopen pass, checkpoint, and the `DataPump` class |
| `LibPump` | lib_pump.dfy | the older engine: pull, reopen, checkpoint, walker, and its `DataPump` class |
| `Source` | data_source.dfy | the data source: cached ids, event-type translation, the `DataSource` class |

Conventions:

- The state the source changes in place lives in classes: the two engines and the data source.
  Their fields are updated by methods with `modifies` clauses.
- The inner loops of the source are module-level methods with loop invariants, each proved
  equal to a recursive specification function. These loops are the reservation, pull, filter,
  reopen, translation and paging loops.
- The engines' long-running loops are modelled one iteration at a time: `loop` as `FetchStep`
  and `WalkStep`, `eventBufferLoop` as `CheckSpace` and `FetchAndWalk`, and `processLoop` as
  `ProcessOnce`. The repetition itself is not a method. What the older walker reaches over many
  iterations is proved with `WalkByIndex`.
- The lemmas state what those functions mean.
- Promises that the engines wait on are boolean "pending" flags. Resolving one sets it to false.
- Service answers are method parameters: translated ids, pages of buckets and pages of events.
  So is the present hour.
- Two time-uuid operations are given at construction as uninterpreted functions: the hour bucket
  of an id (`bucketOf`) and the id just before an id (`before`).
- The order of ids enters lemmas as a ranking function `rank`.

Checkpoints of the newer engine: after every removal the code writes a checkpoint. When the
removal leaves the buffer empty, the checkpoint is the last id. Otherwise it is the head's own
id (src/data-pump/data-pump.ts:191-202). A resume fetches the events after the checkpoint id, so
the unacknowledged head would be skipped. `Pump.UpdateStateAsWritten` models the code as written.
The engine class writes the corrected checkpoint instead, the id just before the head, as the
older engine does; see "## Findings" and "## Left out".

Restarts of the newer engine: a restart records the new cursor and `stopAt` and stops
(src/data-pump/data-pump.ts:172-178). The resume path then sets only the buffer cursor
(src/data-pump/data-pump.ts:261-268). The closest bucket of `stopAt` is resolved only by `start`,
so a restart keeps the stop bucket resolved at the last start. `Pump.DataPump.ResumeAfterRestart`
changes the buffer cursor and nothing of the stop state, as the source does.

The older engine's walker takes the view entry after the first occurrence of the current bucket
(src/lib/data-pump.ts:222-234). A bucket that is not in the view, such as a live hour that has
ended, sends the walker back to the first cached bucket. It then walks the listing again up to
now; the cursor's event id stays set, so the earlier buckets are fetched after that id.
`LibPump.UnlistedBucketRestartsWalk` states the step back, and `LibPump.WalkerReachesNow` proves
that the walk still reaches the bucket of now.

## Model

| member | source | states |
|---|---|---|
| `Buckets.ParseNumber` | src/data-pump/data-source.ts:242-257 | on runs of digits, which include every bucket key, `parseFloat` gives the decimal value of the digits; other strings are outside the model (see "## Left out") |
| `Buckets.LexLessIsNumericLess` | src/data-pump/data-pump.ts:230-257 | on digit strings of equal length, JavaScript's string `<` (used by the newer loop) holds exactly when the numeric order of `parseFloat` (used by the data source) does |
| `Buckets.FindFirstAtOrAfter` | src/data-pump/data-source.ts:253-256 | `find` returns the index of the first bucket at or after the target; every earlier bucket is before it; none means no bucket qualifies |
| `Buckets.FindLastAtOrBefore` | src/data-pump/data-source.ts:247-251 | `findLast` returns the index of the last bucket at or before the target; every later bucket is after it; none means no bucket qualifies |
| `Buckets.ClosestAfterOnAscendingList` | src/data-pump/data-source.ts:242-257 | on an ascending listing the default search succeeds with the smallest bucket at or after the target, or with the last bucket when all buckets are earlier |
| `Buckets.ClosestBeforeOnAscendingList` | src/data-pump/data-source.ts:242-257 | in "before" mode the search gives the largest bucket at or before the target, or the last bucket (not the first) when all buckets are later |
| `Buckets.ClosestOfListedBucket` | src/data-pump/data-source.ts:242-257 | a bucket that is in an ascending listing is its own closest bucket, in both modes |
| `Buckets.IndexOf` | src/data-pump/data-source.ts:228-229 | `indexOf` returns -1 exactly when the value is absent; otherwise it returns the first index holding the value |
| `Buckets.NextTimeBucket` | src/data-pump/data-source.ts:222-233 | fails exactly on an invalid key; a bucket it returns is in the listing |
| `Buckets.NextOnAscendingList` | src/data-pump/data-source.ts:222-233 | on an ascending listing, from a listed bucket the walk moves to the very next bucket, or to none at the end; any next bucket returned is strictly later than the current one |
| `Buckets.WithNowBucket` | src/lib/data-pump.ts:293-299 | the older engine's view is the cached listing, with the bucket of now appended unless it is already last |
| `Buckets.ClosestTimeBucket` | src/data-pump/data-source.ts:242-257 | fails exactly on a target that is not a bucket key, with that key; none exactly for an empty listing; any bucket returned is in the listing |
| `Buckets.ViewClosestTimeBucket` | src/lib/data-pump.ts:301-309 | fails exactly on an invalid key; the bucket returned is in the view |
| `Buckets.ViewClosestAgrees` | src/lib/data-pump.ts:301-309 | the older closest-bucket lookup is the data source's default-mode search over the view |
| `Buckets.ConcatPages` | src/data-pump/data-source.ts:193-215 | the listing assembled from pages starts with the first page's buckets |
| `Buckets.FirstEnd` | src/data-pump/data-source.ts:193-215 | the paging stops at the first page without a next cursor, and every earlier page has one |
| `Buckets.ConcatPagesStep` | src/data-pump/data-source.ts:193-215 | the assembled listing is the first page followed by the listing of the rest, which also ends |
| `Buckets.RequestCursor` | src/data-pump/data-source.ts:205 | `cursor \|\| undefined` sends a cursor exactly when it is present and non-zero |
| `Buckets.Requests` | src/data-pump/data-source.ts:198-212 | the cursors of the first n page requests: none for the first, then the previous answer's cursor as `cursor \|\| undefined` sends it |
| `Buckets.CollectPages` | src/data-pump/data-source.ts:198-212 | the do-while collects exactly the concatenated listing, and makes one request per page up to the first answer without a cursor, each carrying the cursor `Requests` gives it |
| `BufferItems.Appended` | src/data-pump/data-pump.ts:223 | fetched events join the end of the buffer as open, undelivered items |
| `BufferItems.AppendedWellFormed` | src/data-pump/data-pump.ts:223 | appending fetched events keeps the buffer invariant: an item is reserved exactly when it has a delivery id, and that id is below the counter |
| `BufferItems.Quota` | src/data-pump/data-pump.ts:282-293 | the number of events a reservation takes: the smaller of `amount` and the open count, or all open items when `amount` is below 1, since the `===` break then never fires |
| `BufferItems.ReserveScanItems` | src/data-pump/data-pump.ts:282-293 | item by item, the scan reserves exactly the open items within the quota, with a shared delivery id and one more delivery each, and leaves every other item unchanged |
| `BufferItems.ReserveScan` | src/data-pump/data-pump.ts:282-293 | the scan keeps the buffer's length and takes no more events than there are open items, nor, for a quota of at least 1, more than the quota |
| `BufferItems.ReserveScanEvents` | src/data-pump/data-pump.ts:282-293 | the reserved events are the first open events in buffer order, as many as the quota allows |
| `BufferItems.ReserveScanTakesOpenItems` | src/data-pump/data-pump.ts:282-293 | every reserved event is the event of an item that was open |
| `BufferItems.ReserveScanWellFormed` | src/data-pump/data-pump.ts:276-310 | reserving with the next delivery id keeps the buffer invariant, with the counter moved on |
| `BufferItems.ReserveLoop` | src/data-pump/data-pump.ts:282-293 | the reservation loop computes exactly the reservation scan |
| `BufferItems.RemoveListed` | src/data-pump/data-pump.ts:312-336 | removal splits the buffer: kept and removed together account for every item |
| `BufferItems.RemoveListedConcat` | src/data-pump/data-pump.ts:312-336 | removal distributes over concatenation of buffers |
| `BufferItems.RemoveListedMembers` | src/data-pump/data-pump.ts:312-336 | an item is kept exactly when its id is not listed, and removed events are exactly the listed items' events |
| `BufferItems.RemoveUnlisted` | src/lib/data-pump.ts:369-389 | a list that names no buffered id (the empty list in particular) keeps the whole buffer and removes nothing |
| `BufferItems.RemoveListedWellFormed` | src/data-pump/data-pump.ts:312-336 | removal keeps the buffer invariant |
| `BufferItems.FilterListed` | src/data-pump/data-pump.ts:317-323 | the filter loop computes exactly the removal |
| `Pump.DefaultThreshold` | src/data-pump/data-pump.ts:119-122 | `Math.ceil(size * 0.1)`: the smallest integer whose tenfold reaches the size |
| `Pump.ReOpenScan` | src/data-pump/data-pump.ts:366-409 | the reopen pass loses no item: kept plus given-up items are the buffer, and no more are reopened than kept |
| `Pump.ReOpenScanMembers` | src/data-pump/data-pump.ts:366-409 | a listed item of the reservation past the maximum is given up; one within it is reopened with its delivery reset; every other item stays as it was; nothing else appears |
| `Pump.ReOpenUnlimited` | src/data-pump/data-pump.ts:366-409 | with a maximum of -1 nothing is ever given up |
| `Pump.ReOpenStale` | src/data-pump/data-pump.ts:366-409 | a timer whose reservation holds no listed item (all acknowledged or failed) changes nothing |
| `Pump.ReOpenLimitZero` | src/data-pump/data-pump.ts:366-409 | with a maximum of 0 every listed item of the reservation is given up |
| `Pump.ReOpenLimitZeroReopensNothing` | src/data-pump/data-pump.ts:366-409 | with a maximum of 0 nothing is reopened |
| `Pump.ReOpenWellFormed` | src/data-pump/data-pump.ts:366-409 | the reopen pass keeps the buffer invariant |
| `Pump.ReOpenLoop` | src/data-pump/data-pump.ts:370-384 | the reopen loop computes exactly the reopen pass |
| `Pump.LastItemId` | src/data-pump/data-pump.ts:312-336 | the id of the last buffered item, none exactly for an empty buffer |
| `Pump.UpdateStateAsWritten` | src/data-pump/data-pump.ts:191-202 | as written: with a sink, the checkpoint id is the given id, else the head's own id; nothing is written without a sink or a non-empty id; the bucket is the hour of that id |
| `Pump.UpdateState` | src/data-pump/data-pump.ts:191-202 | corrected: the same as written when an id is given or the buffer is empty; otherwise, with a sink and a non-empty head id, the id just before the head, in the head's hour |
| `Pump.CheckpointAfterRemoval` | src/data-pump/data-pump.ts:316-329 | after a removal, with a sink: the tail id and its hour when the buffer is empty; otherwise the id just before the head, in the head's hour, whenever the head id is non-empty |
| `Pump.AsWrittenCheckpointSkipsHead` | src/data-pump/data-pump.ts:191-202 | the as-written checkpoint names the unacknowledged head itself, so a resume after it skips the head |
| `Pump.CheckpointStaysBeforeBuffered` | src/data-pump/data-pump.ts:316-329 | the corrected checkpoint is strictly before every buffered event |
| `Pump.AcknowledgedNeverReserved` | src/data-pump/data-pump.ts:276-336 | once an acknowledged batch is removed, no later reservation hands any of it out again |
| `Pump.DataPump.Create` | src/data-pump/data-pump.ts:97-128 | the defaults (1000 items, 3 redeliveries, 5000 ms, threshold a tenth of the size), an empty buffer, a cursor at the current hour |
| `Pump.DataPump.Start` | src/data-pump/data-pump.ts:130-154 | refuses when running; otherwise marks it running, puts the cursor at the closest bucket of the saved cursor (or at now), and resolves the closest bucket of `stopAt`; a failed search returns its error; no checkpoint is written |
| `Pump.DataPump.Stop` | src/data-pump/data-pump.ts:180-189 | clears the buffer; releases the live wait and the threshold wait, and the event wait unless restarting; the drain wait is not released |
| `Pump.DataPump.Restart` | src/data-pump/data-pump.ts:172-178 | records the restart cursor, sets or clears `stopAt` as asked, and stops |
| `Pump.DataPump.ResumeAfterRestart` | src/data-pump/data-pump.ts:261-269 | with a pending restart, moves the cursor to the restart point's closest bucket and runs again; otherwise stays stopped |
| `Pump.DataPump.FetchStep` | src/data-pump/data-pump.ts:206-228 | fetches exactly when the buffer has room; a fetched page joins the buffer and moves the cursor to its last id, releasing a pending reservation |
| `Pump.DataPump.WalkStep` | src/data-pump/data-pump.ts:230-258 | stops at `stopAt` once reached, and then releases the live, threshold and event waits as `stop` does; after any short page (fewer events than `amount`) moves to the next bucket, drains then stops, or goes live at the present hour; after a full page fetches again. `amount` is the room `FetchStep` requested in the same iteration; the model takes it as a parameter and does not tie the two |
| `Pump.DataPump.Reserve` | src/data-pump/data-pump.ts:276-310 | when running, the buffer and events are the reservation scan under the next delivery id, and a timer is armed for them; it waits exactly when nothing was reserved |
| `Pump.DataPump.AfterRemoval` | src/data-pump/data-pump.ts:325-335 | releases the threshold wait below the threshold and the empty wait on an empty buffer, and writes the corrected checkpoint after removal |
| `Pump.DataPump.Acknowledge` | src/data-pump/data-pump.ts:312-336 | when running, removes exactly the listed items and writes the corrected checkpoint |
| `Pump.DataPump.Fail` | src/data-pump/data-pump.ts:338-364 | when running with ids, removes exactly the listed items, reports their events as failed and writes the corrected checkpoint |
| `Pump.DataPump.ReOpen` | src/data-pump/data-pump.ts:366-409 | the buffer becomes the reopen pass; given-up events are reported and the corrected checkpoint is written; waits are released when something was reopened or removed |
| `Pump.DataPump.FireTimer` | src/data-pump/data-pump.ts:302-307 | the fired timer is disarmed and its reservation goes through the reopen pass; as for `ReOpen`, given-up events are reported, the corrected checkpoint is written and the waits are released when something was reopened or removed |
| `Pump.DataPump.ProcessOnce` | src/data-pump/data-pump.ts:415-426 | when running, the processor reserves up to its concurrency under the next delivery id and arms a timer for a non-empty batch, waiting exactly when nothing was reserved; after a successful handler the batch is removed and the corrected checkpoint written; after a throwing handler the batch stays reserved and nothing is written; when stopped nothing changes |
| `LibPump.PullQuota` | src/lib/data-pump.ts:339-349 | the `>=` break fires after the first event for any amount below 1, so the quota is at least 1 and is the amount otherwise |
| `LibPump.PullLoop` | src/lib/data-pump.ts:339-349 | the pull loop computes the shared reservation scan with the older quota |
| `LibPump.PullZeroTakesOne` | src/lib/data-pump.ts:339-349 | where the generations differ: an older pull of 0 takes exactly the first open event, a newer reserve of 0 takes all of them |
| `LibPump.LibReOpenScan` | src/lib/data-pump.ts:241-277 | the older reopen filter loses no item, and reopens no more than it keeps |
| `LibPump.LibReOpenScanMembers` | src/lib/data-pump.ts:241-277 | exactly the exhausted items of the reservation are given up, listed or not; a listed one within the maximum is reopened; every other item, including an unlisted, non-exhausted item of the reservation, stays as it was; nothing else is kept |
| `LibPump.LibReOpenAgrees` | src/lib/data-pump.ts:241-277 | when the timer lists every item its reservation still holds, the older and newer reopen passes agree |
| `LibPump.LibReOpenWellFormed` | src/lib/data-pump.ts:241-277 | the older reopen keeps the buffer invariant |
| `LibPump.LibReOpenLoop` | src/lib/data-pump.ts:248-263 | the older reopen loop computes exactly its filter |
| `LibPump.LibCheckpoint` | src/lib/data-pump.ts:279-291 | with items, the head's bucket and the id just before the head; with none, the given non-empty id and the hour of that id, else nothing |
| `LibPump.LibCheckpointStaysBeforeBuffered` | src/lib/data-pump.ts:279-291 | the older checkpoint is strictly before every buffered event |
| `LibPump.CorrectedCheckpointIsOlder` | src/lib/data-pump.ts:279-291 | the corrected newer checkpoint equals the older engine's |
| `LibPump.NextByIndex` | src/lib/data-pump.ts:219-236 | the view entry after the first occurrence of the current bucket, or none when that entry is missing or empty; the first entry when the bucket is absent |
| `LibPump.UnlistedBucketRestartsWalk` | src/lib/data-pump.ts:222-234 | a current bucket missing from the view (a live hour that has ended) sends the walker back to the first cached bucket, which is earlier |
| `LibPump.NextOfListed` | src/lib/data-pump.ts:222-234 | on a view without empty or repeated entries, from the entry at index `i` the walker moves to the entry at `i + 1`, or nowhere from the last one |
| `LibPump.WalkFromListed` | src/lib/data-pump.ts:222-234 | from the entry at index `i`, `n` moves reach the entry at `i + n`, or the last entry when that index is past the end |
| `LibPump.WalkReachesLast` | src/lib/data-pump.ts:222-234 | from any bucket, listed or not, as many moves as the view has entries reach the last entry |
| `LibPump.WalkerReachesNow` | src/lib/data-pump.ts:222-234 | on an ascending view, the older walk reaches the bucket of now from any bucket |
| `LibPump.DataPump.constructor` | src/lib/data-pump.ts:81-86 | the options as given, an empty buffer and listing, a cursor at the current hour, not running |
| `LibPump.DataPump.UpdateTimeBuckets` | src/lib/data-pump.ts:311-329 | the cached listing becomes the concatenation of the answers, up to the first one without a cursor (a cursor of 0 goes on) |
| `LibPump.DataPump.Start` | src/lib/data-pump.ts:88-104 | a no-op when running; otherwise refreshes the listing and resolves the saved cursor's (or now's) bucket |
| `LibPump.DataPump.Stop` | src/lib/data-pump.ts:121-130 | when running, releases every wait; the buffer is kept |
| `LibPump.DataPump.CheckSpace` | src/lib/data-pump.ts:159-163 | waits exactly when running with at least `size - threshold` items buffered |
| `LibPump.DataPump.FetchAndWalk` | src/lib/data-pump.ts:170-238 | appends the page and advances the cursor id; with a next cursor it fetches more; otherwise it moves to the view entry after the current bucket's first occurrence (the first entry when unlisted), or without one tries again after events and waits for the notifier after none |
| `LibPump.DataPump.PullInner` | src/lib/data-pump.ts:331-367 | refused when not running; otherwise the pull scan, with a timer armed for what it took |
| `LibPump.DataPump.Pull` | src/lib/data-pump.ts:452-457 | refused when a processor is configured; otherwise, as `PullInner`: refused and nothing changed when not running, else the pull scan under the next delivery id with a timer armed for a non-empty batch, waiting exactly when nothing was taken |
| `LibPump.DataPump.AcknowledgeInner` | src/lib/data-pump.ts:369-389 | nothing for an empty list; otherwise removes exactly the listed ids and checkpoints |
| `LibPump.DataPump.Acknowledge` | src/lib/data-pump.ts:459-464 | refused when a processor is configured; otherwise, as `AcknowledgeInner`: nothing for an empty list, else removes exactly the listed ids, releases the threshold wait below the threshold and writes the checkpoint |
| `LibPump.DataPump.ReOpen` | src/lib/data-pump.ts:241-277 | nothing for an empty list; otherwise the buffer becomes the older reopen filter |
| `LibPump.DataPump.FireTimer` | src/lib/data-pump.ts:359-364 | the fired timer is disarmed; an empty reservation changes nothing else; otherwise its reservation goes through the reopen pass, given-up events are reported and checkpointed, and the waits are released as `ReOpen` does |
| `Source.ResolveId` | src/data-pump/data-source.ts:97-112 | a cached non-empty id wins; otherwise the name itself without translation, or the service's answer |
| `Source.ResolvedIdIsStable` | src/data-pump/data-source.ts:97-156 | once resolved to a non-empty id, later lookups give that id whatever the service answers |
| `Source.FindEventTypeId` | src/data-pump/data-source.ts:176-180 | none exactly when no entry has the name; otherwise the id of the first entry with that name |
| `Source.TranslateEventTypes` | src/data-pump/data-source.ts:163-186 | a successful translation gives one id per name; a failure names one of the names |
| `Source.EventTypeIdsFrom` | src/data-pump/data-source.ts:163-186 | what `getEventTypeIds` gives: the cached list whenever there is one; a failure only when translating from an empty cache, naming one of the event-type names |
| `Source.TranslateEventTypesMeaning` | src/data-pump/data-source.ts:163-186 | translation succeeds exactly when every name is listed, then gives each name's id in order; otherwise it fails on the first unlisted name |
| `Source.TranslateLoop` | src/data-pump/data-source.ts:175-183 | the translation loop computes exactly the translation |
| `Source.DataSource.GetTenantId` | src/data-pump/data-source.ts:97-112 | returns the resolved id and caches it, keeping a non-empty cached id |
| `Source.DataSource.GetDataCoreId` | src/data-pump/data-source.ts:118-134 | returns the resolved id and caches it |
| `Source.DataSource.GetFlowTypeId` | src/data-pump/data-source.ts:140-156 | returns the resolved id and caches it; translating first resolves the data core id |
| `Source.DataSource.GetEventTypeIds` | src/data-pump/data-source.ts:163-186 | the cached list if any; the names without translation; otherwise the translation, cached on success, after the flow type id (and, when it was not cached, the data core id) has been resolved and cached |
| `Source.DataSource.GetTimeBuckets` | src/data-pump/data-source.ts:193-215 | the cached listing unless forced or absent; otherwise it first gets the event-type ids, which resolves and caches the translation ids; when a name is not listed it fails with that error, sends no request and caches no listing; otherwise the collected pages, which become the cache |
| `Source.DataSource.GetClosestTimeBucket` | src/data-pump/data-source.ts:242-257 | gets the listing as `GetTimeBuckets` does, failing with its translation error; over the cached listing, the closest-bucket search, its invalid-key error reported as the data source's error |
| `Source.DataSource.GetNextTimeBucket` | src/data-pump/data-source.ts:222-233 | gets the listing as `GetTimeBuckets` does, failing with its translation error; over the cached listing, the next-bucket search, its errors reported as the data source's errors |

## Left out

- The network and the Flowcore API are left out. Each answer (a translated id, a page of buckets, a page of events) is a method parameter.
- The clock is left out. "Now" is given as the current hour bucket and its time-uuid.
- Time-uuid internals are left out. `bucketOf`, `before` and the id order `rank` are uninterpreted functions.
- Timers are left out as real timers. An armed timer is a record, and `FireTimer` fires one; the delay is not simulated.
- Asynchronous interleaving is left out, including the `!running` re-checks after an `await`. Each method runs to completion.
- Promises that the engines wait on are boolean "pending" flags, and their resolvers are not modelled.
- The notifiers (`notifier.ts`, `ws-notifier.ts`, `nats-notifier.ts`), metrics, logging and the factory wiring in `data-pump-create.ts` are not part of this model.
- Event payloads are left out. An event is its id, type and time bucket.
- `getEvents` (the event page fetch itself) is not part of this model. The event-type ids sent with a page request are not modelled.
- The older engine's processor loop (`proceccor`) is left out. It only calls pull, the handler and acknowledge in a loop.
- Buffer items are values. Aliasing of an item between the buffer and a reservation handed out is not modelled.
- `Buckets.ParseNumber`: models `parseFloat` only on runs of digits, which is what bucket keys are. Every target passes the 14-digit key check, and the service's listing is taken to hold only keys. On other strings JavaScript gives a value the model does not give: it reads a numeric prefix (`"12ab"` is 12), a sign (`"-3"`), leading blanks (`" 7"`) and fractions (`"1.5"`). It also rounds a run of more than 15 digits. The model gives None for every non-digit string.
- `Pump.DefaultThreshold`: assumes an integer buffer size, since `Math.ceil(size * 0.1)` on a non-integer size is not modelled.
- `Pump.DataPump.AfterRemoval`: writes the corrected checkpoint, not the code's. While items remain, the code writes the head's own id (src/data-pump/data-pump.ts:195); the model writes the id just before the head (see "## Findings").
- `Pump.DataPump.Acknowledge`: its checkpoint, written through `AfterRemoval`, is the corrected one, not the head's own id that the code writes while items remain.
- `Pump.DataPump.Fail`: its checkpoint, written through `AfterRemoval`, is the corrected one, not the head's own id that the code writes while items remain.
- `Pump.DataPump.FireTimer`: its checkpoint after giving items up, written through `ReOpen` and `AfterRemoval`, is the corrected one, not the head's own id that the code writes while items remain.
- `Pump.DataPump.ProcessOnce`: its checkpoint after a successful handler, written through `Acknowledge` and `AfterRemoval`, is the corrected one, not the head's own id that the code writes while items remain.
- `Pump.DataPump.ReOpen`: its checkpoint after giving items up, written through `AfterRemoval`, is the corrected one, not the head's own id that the code writes while items remain.
- The older checkpoint with an empty buffer calls `getTimeBucket` on a time-uuid (src/lib/data-pump.ts:284), which src/lib/time-uuid.ts does not define. The model takes the hour bucket of the id (`bucketOf`), as `LibPump.LibCheckpoint` states.
- `Pump.DataPump.ProcessOnce`: a throwing handler is modelled as `handlerSucceeds == false`. What the handler's exception carries is not modelled.
- `LibPump.DataPump.UpdateTimeBuckets`: the older engine passes no cursor with any of its page requests (src/lib/data-pump.ts:317-323), so a service that pages would answer each request with the first page again. The model takes the successive answers as given and does not record the requests.
- Handler errors reported through `failed` callbacks are recorded as lists of events. The callbacks themselves are not called.

## Findings

| source | as written | input that shows it | evidently intended | confidence | as-written member | corrected member |
|---|---|---|---|---|---|---|
| src/data-pump/data-pump.ts:191-202 | while items remain, `updateState()` checkpoints the buffer head's own id; a resume fetches after that id (exclusive) | buffer `[e1 (reserved), e2]`; acknowledge `e2`: the checkpoint becomes `e1`; after a restart the events fetched start after `e1`, so the unacknowledged `e1` is never delivered again | checkpoint the id just before the head, as the older engine does (src/lib/data-pump.ts:288-290) | high, not executed | `Pump.UpdateStateAsWritten` (`Pump.AsWrittenCheckpointSkipsHead`) | `Pump.UpdateState`, `Pump.CheckpointAfterRemoval` (`Pump.CheckpointStaysBeforeBuffered`, `LibPump.CorrectedCheckpointIsOlder`) |
