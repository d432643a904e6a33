# Sheaf offline reading and reading progress, in Dafny

Sheaf is a self-hosted PDF library. This project models the part of it that keeps reading
working without a network, and the two server routers that part talks to:

- **The offline store.** The browser's IndexedDB database `sheaf-offline` has three tables:
  - `documents`: document metadata, keyed by document id;
  - `pdfs`: the PDF bytes, keyed by document id;
  - `pendingProgress`: a queue of reading-progress writes, with an auto-incremented key.

  `OfflineDb.OfflineStore` is a class over these three tables. It also tracks the key
  generator.
- **The reconciliation pass.** `OfflineSync.SyncPendingProgress` replays a snapshot of the
  queue to the server. It then deletes exactly the entries the server accepted and returns
  the counts and error messages.
- **The `useOffline` hook.** `UseOffline.OfflineCoordinator` keeps the hook's state:
  - whether the hook thinks it is online;
  - the pending count, polled and refreshed;
  - the syncing and saving flags;
  - the storage usage;
  - the one-shot `syncAttempted` latch.

  Its callbacks include saving or removing a document for offline use, queueing progress,
  and `syncNow`.
- **The reader page.** `ReaderPage` covers:
  - page navigation by buttons, arrow keys, swipes and the page field;
  - the load effect, which chooses between the offline copy and the server, then picks
    the start page and sends the initial progress write;
  - the debounced `saveProgress`, with the queue as fallback.
- **The reading-progress router.** `ReadingProgressStore.ProgressTable` is the
  `reading_progress` table with one row per (user, document). It supports upsert,
  get-by-pair and "five most recently read".
- **The storage-settings router.** `StorageSettings.UserStorage` holds the per-user storage
  columns. It covers validating and merging a settings update (which includes probing
  Azure), building the Azure connection string, and the read model. The read model
  reports only whether a connection string is set.

Whatever lies outside the program becomes a parameter:

- **The clock.** `Date.now()` and the database's `now()` are a `now` argument.
- **The network.** The document fetches are an `Option`/`Result` argument. `progressApi.save`
  comes in three forms:
  - in the reconciliation pass, it answers through a `Remote` function of the attempt index
    and the arguments;
  - in the reader page's `saveProgress`, whether the write resolves is the boolean
    `directSaveOk`;
  - the write the load effect sends once the start page is known ignores its answer, so it
    is returned as the write `sent` and nothing depends on the reply.
- **pdf.js.** `getDocument` is a `parsePdf` function.
- **The Azure probe.** It is an `AzureProbe` function.
- **`navigator.onLine`.** It is a `browserOnline` argument, distinct from the hook's
  `isOnline` state.

Module layout:

| module | file | covers |
|---|---|---|
| `Wrappers` | `wrappers.dfy` | `Option` and `Result` |
| `Ordering` | `ordering.dfy` | the order on string keys; generic sorting and filtering with their lemmas |
| `OfflineDb` | `offline_db.dfy` | `offlineDb.ts` |
| `OfflineSync` | `offline_sync.dfy` | `offlineSync.ts` |
| `UseOffline` | `use_offline.dfy` | `useOffline.ts` |
| `ReaderPage` | `reader_page.dfy` | `ReaderPage.tsx` |
| `ReadingProgressStore` | `reading_progress.dfy` | the reading-progress router and model |
| `StorageSettings` | `settings.dfy` | the settings router and the user's storage columns |

IndexedDB's ordering is modelled as follows:

- `documents` is kept as a sequence in ascending key order, the order `toArray()` returns.
  `put` replaces a row in place or inserts it at its key.
- `orderBy('updatedAt')` reads the single-field `updatedAt` index. IndexedDB orders the
  records of an index by the index key and then by primary key, so ties come out in
  ascending key order.
- `orderBy('savedAt').reverse()` sorts by `savedAt` descending. Ties fall back to the key,
  descending.
- The `++id` key generator starts at 1 and never reuses a key.

## Model

| member | source | states |
|---|---|---|
| `OfflineDb.FindDoc` | frontend/src/lib/offlineDb.ts:71 | `documents.get` finds a row exactly when the id is cached, and the row it returns has that id |
| `OfflineDb.PutDoc` | frontend/src/lib/offlineDb.ts:56-59 | after `documents.put` the cached ids are the old ones plus the new id |
| `OfflineDb.DeleteDoc` | frontend/src/lib/offlineDb.ts:83 | `documents.delete` keeps exactly the rows with another id, and the cached ids lose that id |
| `OfflineDb.TotalBytes` | frontend/src/lib/offlineDb.ts:97-98 | the `reduce` over `size_bytes`: with no negative sizes the total is non-negative and at least each row's size |
| `OfflineDb.PutDocFind` | frontend/src/lib/offlineDb.ts:56-59 | after a put, reading the same id gives the new row; reading any other id gives what it gave before |
| `OfflineDb.PutDocOrdered` | frontend/src/lib/offlineDb.ts:40 | put keeps the table in strictly ascending primary-key order, so keys stay unique |
| `OfflineDb.KeyOrderedDistinct` | frontend/src/lib/offlineDb.ts:40 | in a key-ordered table the number of distinct ids equals the number of rows |
| `OfflineDb.PutDocMembers` | frontend/src/lib/offlineDb.ts:56-59 | after a put the rows are the new row plus every old row with a different id (a replace, not a duplicate) |
| `OfflineDb.PutDocCount` | frontend/src/lib/offlineDb.ts:56-59 | put adds one row for a new id and none for an id already cached |
| `OfflineDb.PutDocBytes` | frontend/src/lib/offlineDb.ts:93-103 | the byte total after a put swaps the replaced row's `size_bytes` for the new row's |
| `OfflineDb.DeleteDocOrdered` | frontend/src/lib/offlineDb.ts:83 | delete keeps the table key-ordered |
| `OfflineDb.DeleteAbsent` | frontend/src/lib/offlineDb.ts:83 | deleting an id that is not cached changes nothing |
| `OfflineDb.DeleteDocFind` | frontend/src/lib/offlineDb.ts:83 | after a delete, that id reads as absent and every other id reads as before |
| `OfflineDb.WithoutDocument` | frontend/src/lib/offlineDb.ts:111 | `where('documentId').equals(id).delete()` keeps exactly the entries of other documents |
| `OfflineDb.WithoutIds` | frontend/src/lib/offlineDb.ts:126-128 | `bulkDelete(ids)` keeps exactly the entries whose key is not listed |
| `OfflineDb.Enqueue` | frontend/src/lib/offlineDb.ts:110-119 | the delete-then-add of `queueProgressUpdate`: the queue ends with the new entry under the generator's key, and holds exactly that entry and the other documents' entries |
| `OfflineDb.WithoutAbsentIds` | frontend/src/lib/offlineDb.ts:126-128 | bulk-deleting keys that no entry carries leaves the queue unchanged |
| `OfflineDb.WithoutIdsValid` | frontend/src/lib/offlineDb.ts:126-128 | bulk deletion keeps the queue invariant (keys ascending and below the generator, at most one entry per document) |
| `OfflineDb.EnqueueCoalesces` | frontend/src/lib/offlineDb.ts:105-120 | after an enqueue the document has exactly one entry, with the new values and a fresh key; other documents' entries are untouched; the invariant holds with the generator advanced |
| `OfflineDb.SnapshotSorted` | frontend/src/lib/offlineDb.ts:122-124 | `orderBy('updatedAt')` yields the queue in strictly increasing (updatedAt, key) order |
| `OfflineDb.DistinctEntriesDistinctKeys` | frontend/src/lib/offlineDb.ts:42 | two different queue entries never share a key |
| `OfflineDb.PutPaired` | frontend/src/lib/offlineDb.ts:55-65 | the two puts in one transaction keep "every cached document has its PDF" |
| `OfflineDb.Lookup` | frontend/src/lib/offlineDb.ts:68-79 | the two-table read: a copy exactly when the id has both a metadata row and a PDF row, built from that row and those bytes |
| `OfflineDb.DeletePaired` | frontend/src/lib/offlineDb.ts:82-85 | the two deletes in one transaction keep the same pairing |
| `OfflineDb.LookupAfterPut` | frontend/src/lib/offlineDb.ts:49-79 | after saving, reading the document back gives the saved metadata and bytes; other documents read as before |
| `OfflineDb.LookupAfterDelete` | frontend/src/lib/offlineDb.ts:68-86 | after removal the document reads as null; other documents read as before |
| `OfflineDb.OfflineStore.constructor` | frontend/src/lib/offlineDb.ts:36-44 | a new database has three empty tables and its key generator at 1 |
| `OfflineDb.OfflineStore.GetOfflineDocument` | frontend/src/lib/offlineDb.ts:68-79 | returns a copy exactly when both the metadata row and the PDF row exist, made of those two rows |
| `OfflineDb.OfflineStore.GetAllOfflineDocumentIds` | frontend/src/lib/offlineDb.ts:88-91 | one id per row; exactly the cached ids; in ascending key order |
| `OfflineDb.OfflineStore.GetOfflineStorageUsage` | frontend/src/lib/offlineDb.ts:93-103 | the document count equals the number of distinct cached documents |
| `OfflineDb.OfflineStore.GetPendingProgressUpdates` | frontend/src/lib/offlineDb.ts:122-124 | a permutation of the queue, sorted by (updatedAt, key) |
| `OfflineDb.OfflineStore.SaveDocumentForOffline` | frontend/src/lib/offlineDb.ts:49-66 | both rows are written with one `savedAt`; the document reads back as saved and all others as before |
| `OfflineDb.OfflineStore.RemoveOfflineDocument` | frontend/src/lib/offlineDb.ts:81-86 | both rows go; the document reads as null and all others as before; removing an absent id changes nothing |
| `OfflineDb.OfflineStore.QueueProgressUpdate` | frontend/src/lib/offlineDb.ts:105-120 | delete-then-add in one transaction: one entry per document, with the newest values and a fresh key; other documents untouched |
| `OfflineDb.OfflineStore.ClearPendingProgress` | frontend/src/lib/offlineDb.ts:126-128 | exactly the entries with listed keys are removed |
| `OfflineSync.Outcome` | frontend/src/lib/offlineSync.ts:24-30 | a resolved save records success; a rejected one records failure with the error's message, or "Unknown error" |
| `OfflineSync.AnswerTo` | frontend/src/lib/offlineSync.ts:25 | the reply to the save of the `j`-th snapshot entry, with that entry's document, page and page count |
| `OfflineSync.Attempts` | frontend/src/lib/offlineSync.ts:21-31 | the pass's `results`: one outcome per snapshot entry, in snapshot order, each from that entry's reply |
| `OfflineSync.SyncedIds` | frontend/src/lib/offlineSync.ts:33-35 | a key is collected exactly when some result for it succeeded |
| `OfflineSync.Synced` | frontend/src/lib/offlineSync.ts:42 | the successes counted by `filter(r => r.success).length`, never more than the attempts |
| `OfflineSync.Failed` | frontend/src/lib/offlineSync.ts:43 | the failures counted by `filter(r => !r.success).length`, never more than the attempts |
| `OfflineSync.Errors` | frontend/src/lib/offlineSync.ts:44 | the failures' messages in result order, never more than the attempts |
| `OfflineSync.CountsAddUp` | frontend/src/lib/offlineSync.ts:41-45 | synced plus failed is the number of attempts, and there is one message per failure |
| `OfflineSync.Summarize` | frontend/src/lib/offlineSync.ts:41-45 | the summary's counts add up to the attempts, with one error per failure |
| `OfflineSync.SyncedAppend` | frontend/src/lib/offlineSync.ts:26 | a further success adds one to the success count and a failure adds none |
| `OfflineSync.FailedAppend` | frontend/src/lib/offlineSync.ts:29 | a further failure adds one to the failure count and a success adds none |
| `OfflineSync.ErrorsAppend` | frontend/src/lib/offlineSync.ts:27-29 | a further failure's message goes at the end of the messages; a success adds none |
| `OfflineSync.SummarizeAppend` | frontend/src/lib/offlineSync.ts:23-31 | the summary of the results with one more attempt is the old summary with that attempt added to exactly one count, and a failure's message at the end of `errors` |
| `OfflineSync.PushEach` | frontend/src/lib/offlineSync.ts:21-31 | exactly one attempt per snapshot entry, in snapshot order, whatever the earlier attempts returned |
| `OfflineSync.ExactlySucceededRemoved` | frontend/src/lib/offlineSync.ts:33-39 | deleting the succeeded keys removes every succeeded entry and keeps every failed one |
| `OfflineSync.LaterEntriesSurvive` | frontend/src/lib/offlineSync.ts:15-39 | only snapshot keys are deleted, so an entry with a later key survives the deletion |
| `OfflineSync.SyncPendingProgress` | frontend/src/lib/offlineSync.ts:14-46 | an empty queue gives (0, 0, []); otherwise each snapshot entry is attempted once in order, exactly the succeeded entries leave the queue, and the summary counts them |
| `OfflineSync.GetPendingSyncCount` | frontend/src/lib/offlineSync.ts:53-56 | the number of queued entries |
| `OfflineSync.HasPendingSync` | frontend/src/lib/offlineSync.ts:48-51 | true exactly when the queue is non-empty, that is, when the pending count is positive |
| `UseOffline.SavedAfterTransitive` | frontend/src/hooks/useOffline.ts:39 | the newest-first (savedAt, key) order is transitive |
| `UseOffline.OfflineDocuments` | frontend/src/hooks/useOffline.ts:38-42 | the live query holds exactly the cached rows, newest `savedAt` first |
| `UseOffline.OfflineDocIds` | frontend/src/hooks/useOffline.ts:44 | one id per cached row, and exactly the cached ids |
| `UseOffline.OfflineCoordinator.constructor` | frontend/src/hooks/useOffline.ts:32-46 | the first render: `isOnline` is the browser's flag, the count is 0, nothing is syncing or saving, usage is zero, the latch is clear |
| `UseOffline.OfflineCoordinator.SyncNow` | frontend/src/hooks/useOffline.ts:48-61 | refused with (0, 0) and no change when the browser is offline or a pass is running; otherwise the pass's results are each snapshot entry's reply, exactly the succeeded entries leave the queue, the counts are the summary's, the pending count is re-read and `isSyncing` is false |
| `UseOffline.OfflineCoordinator.HandleOnline` | frontend/src/hooks/useOffline.ts:64-70 | sets online and the latch; only the first `online` event runs `syncNow`, whose effect on the queue, the count and `isSyncing` is stated as for `SyncNow`; a later event leaves them all unchanged |
| `UseOffline.OfflineCoordinator.HandleOffline` | frontend/src/hooks/useOffline.ts:71 | sets offline |
| `UseOffline.OfflineCoordinator.PollPendingCount` | frontend/src/hooks/useOffline.ts:82-91 | the count equals the queue length |
| `UseOffline.OfflineCoordinator.RefreshStorageUsage` | frontend/src/hooks/useOffline.ts:93-99 | usage equals the number of cached documents and the sum of their sizes |
| `UseOffline.OfflineCoordinator.IsDocumentOffline` | frontend/src/hooks/useOffline.ts:101-106 | true exactly when the document is cached |
| `UseOffline.OfflineCoordinator.SaveOffline` | frontend/src/hooks/useOffline.ts:108-119 | when the fetch fails nothing is stored; otherwise the documents table is the put of the new row, the PDF table gains exactly the fetched bytes under the id (all other rows as before), the document reads back and counts as offline; `isSaving` ends null either way |
| `UseOffline.OfflineCoordinator.RemoveOffline` | frontend/src/hooks/useOffline.ts:121-123 | the document is no longer offline; others are unaffected |
| `UseOffline.OfflineCoordinator.GetOfflinePdf` | frontend/src/hooks/useOffline.ts:125-128 | bytes exactly when both rows exist, and they are the stored bytes |
| `UseOffline.OfflineCoordinator.SaveProgressOffline` | frontend/src/hooks/useOffline.ts:130-136 | the queue becomes the coalescing enqueue under the generator's key, which then advances; the new entry is the document's only one; the count is the new queue length |
| `ReaderPage.PreviousPage` | frontend/src/pages/ReaderPage.tsx:272 | one page back, never below 1 |
| `ReaderPage.NextPage` | frontend/src/pages/ReaderPage.tsx:275 | one page forward, never past the page count |
| `ReaderPage.NavigationStaysInRange` | frontend/src/pages/ReaderPage.tsx:270-275 | from a valid page both moves give a valid page |
| `ReaderPage.NavigationInverse` | frontend/src/pages/ReaderPage.tsx:270-275 | back undoes forward and forward undoes back, except at the ends where the move is a no-op |
| `ReaderPage.KeyPage` | frontend/src/pages/ReaderPage.tsx:269-282 | Left/Up go back, Right/Down go forward, any other key leaves the page; the page stays in range |
| `ReaderPage.SwipeTurn` | frontend/src/pages/ReaderPage.tsx:302-308 | a swipe turns the page exactly when its horizontal travel exceeds 60 px and 1.5 times its vertical travel; a leftward swipe goes forward and a rightward one goes back |
| `ReaderPage.SwipeMirror` | frontend/src/pages/ReaderPage.tsx:302-307 | mirroring a swipe keeps whether it turns and reverses the direction; mostly vertical or short swipes never turn |
| `ReaderPage.TypedPage` | frontend/src/pages/ReaderPage.tsx:457-460 | a typed number is accepted exactly when it is within 1..numPages; anything else keeps the page |
| `ReaderPage.ChooseSource` | frontend/src/pages/ReaderPage.tsx:105-111 | unavailable exactly when offline and not cached; cache only when cached; server whenever both flags say online |
| `ReaderPage.StartPage` | frontend/src/pages/ReaderPage.tsx:145-158 | the stored page capped at the page count when online and the stored page is positive; otherwise page 1 |
| `ReaderPage.Acquire` | frontend/src/pages/ReaderPage.tsx:105-133 | each failure yields its own message; a cached load returns the stored metadata and bytes; a server load returns the fetched pair or the error's message |
| `ReaderPage.CachedLoadSucceeds` | frontend/src/pages/ReaderPage.tsx:111-124 | when the hook lists a document as offline, loading it from the cache always finds both rows |
| `ReaderPage.ProgressRoute` | frontend/src/pages/ReaderPage.tsx:237-249 | skipped exactly without a document id or page count; sent to the server exactly when online; queued exactly when offline or the server write is rejected |
| `ReaderPage.ReaderView.constructor` | frontend/src/pages/ReaderPage.tsx:28-36 | initial page state: page 1, no pages, loading, no error, not loaded offline |
| `ReaderPage.ReaderView.Load` | frontend/src/pages/ReaderPage.tsx:90-177 | no document id does nothing; otherwise the source is chosen, an error only sets the message, and a success sets the document, page count and start page and sends the initial write when online |
| `ReaderPage.ReaderView.Finish` | frontend/src/pages/ReaderPage.tsx:135-171 | the part of the load after the bytes are known, with the same outcomes as `Load` |
| `ReaderPage.ReaderView.GoPrevious` | frontend/src/pages/ReaderPage.tsx:444 | the previous-page button |
| `ReaderPage.ReaderView.GoNext` | frontend/src/pages/ReaderPage.tsx:467 | the next-page button |
| `ReaderPage.ReaderView.HandleKey` | frontend/src/pages/ReaderPage.tsx:269-282 | the page moves as `KeyPage` says |
| `ReaderPage.ReaderView.HandleTouchStart` | frontend/src/pages/ReaderPage.tsx:290-293 | records the touch point |
| `ReaderPage.ReaderView.HandleTouchEnd` | frontend/src/pages/ReaderPage.tsx:295-309 | without a start point nothing happens; otherwise the start point is cleared and the page turns as `SwipeTurn` says |
| `ReaderPage.ReaderView.HandlePageInput` | frontend/src/pages/ReaderPage.tsx:457-460 | the page becomes the typed number only when it is in range |
| `ReaderPage.ReaderView.SaveProgress` | frontend/src/pages/ReaderPage.tsx:237-249 | follows `ProgressRoute`: without a document or pages, and on a direct write that resolves, the queue, the key generator and the count are unchanged; otherwise the page is enqueued and the count refreshed; no update is lost, since the page either reached the server or is the document's one queued entry |
| `ReadingProgressStore.FindRow` | sheaf/routers/reading_progress.py:50-56 | finds a row of the (user, document) pair, or reports that none exists |
| `ReadingProgressStore.Lookup` | sheaf/routers/reading_progress.py:50-56 | the pair's row, or none exactly when the table has no row for the pair |
| `ReadingProgressStore.Upsert` | sheaf/routers/reading_progress.py:56-67 | a row is added exactly when the pair had none, and every row is an old one or the pair's |
| `ReadingProgressStore.LookupFindsRow` | sheaf/models/reading_progress.py:12-14 | under the unique constraint, looking up a row's pair returns that row |
| `ReadingProgressStore.UpsertOnePerPair` | sheaf/routers/reading_progress.py:56-67 | saving keeps at most one row per (user, document) |
| `ReadingProgressStore.InsertKeepsOthers` | sheaf/routers/reading_progress.py:57-64 | inserting a new pair's row leaves every other pair's lookup as it was |
| `ReadingProgressStore.UpdateKeepsOthers` | sheaf/routers/reading_progress.py:65-67 | updating a pair's row in place leaves every other pair's lookup as it was |
| `ReadingProgressStore.UpsertLookup` | sheaf/routers/reading_progress.py:56-67 | after a save the pair reads back the written pages, stamped now (or unchanged when nothing changed); every other pair reads as before |
| `ReadingProgressStore.LastWriteWins` | sheaf/routers/reading_progress.py:65-67 | of two saves to the same pair, the second one's pages are read back |
| `ReadingProgressStore.NewerFirstTransitive` | sheaf/routers/reading_progress.py:22 | the newest-first order is transitive |
| `ReadingProgressStore.RowsOf` | sheaf/routers/reading_progress.py:21 | exactly the user's rows |
| `ReadingProgressStore.NewestFirst` | sheaf/routers/reading_progress.py:19-24 | a permutation of the user's rows, sorted newest first |
| `ReadingProgressStore.PrefixIsNewest` | sheaf/routers/reading_progress.py:22-23 | any prefix of a newest-first list is at least as recent as everything after it |
| `ReadingProgressStore.Recent` | sheaf/routers/reading_progress.py:19-24 | the `limit(5)` of the newest-first rows: never more than five |
| `ReadingProgressStore.RecentIsNewest` | sheaf/routers/reading_progress.py:14-25 | at most five of the user's rows, each taken at most as often as the table holds it, newest first, none older than a row left out |
| `ReadingProgressStore.ProgressTable.constructor` | sheaf/models/reading_progress.py:10-14 | an empty table |
| `ReadingProgressStore.ProgressTable.GetProgress` | sheaf/routers/reading_progress.py:28-40 | the pair's row, or none exactly when the pair has no row |
| `ReadingProgressStore.ProgressTable.ListProgress` | sheaf/routers/reading_progress.py:14-25 | the user's five most recently read rows (or all of them, when fewer), with no row repeated, newest first, none older than a row left out |
| `ReadingProgressStore.ProgressTable.SaveProgress` | sheaf/routers/reading_progress.py:43-70 | insert for a new pair (stamped now), update in place otherwise; the pages read back; other pairs unchanged |
| `StorageSettings.BuildConnectionString` | sheaf/routers/settings.py:12-18 | the string is exactly the protocol prefix, the account name, the `;AccountKey=` label, the key and the endpoint suffix, each slice pinned in place |
| `StorageSettings.ParseConnectionString` | sheaf/routers/settings.py:12-18 | not a function of the router: the reference inverse of the builder; a string it accepts is exactly the one built from the name and key it returns, and the name has no ';' |
| `StorageSettings.ParseAccount` | sheaf/routers/settings.py:15-16 | not a function of the router: splits the account part at its first ';'; what it returns rebuilds the part exactly |
| `StorageSettings.ParseBuild` | sheaf/routers/settings.py:12-18 | account name and key can be read back from a built connection string whenever the name has no ';' |
| `StorageSettings.ClearBranchUnreachable` | sheaf/routers/settings.py:42-46 | the "clear the connection string" branch can never be taken |
| `StorageSettings.NewConnectionString` | sheaf/routers/settings.py:42-46 | both account fields given rebuild the string; a stored connection string is never cleared |
| `StorageSettings.Decide` | sheaf/routers/settings.py:36-75 | an unknown backend is refused; a local backend is accepted; Azure needs a connection string and a container, then the probe decides: SDK missing, connection failed, or accepted; on acceptance the backend, container and connection string follow the merge rules |
| `StorageSettings.AzureAcceptedIsComplete` | sheaf/routers/settings.py:54-75 | an accepted Azure setting has a connection string and a container, and the probe reached them |
| `StorageSettings.ReadOf` | sheaf/routers/settings.py:79-83 | the read model copies the backend and container and tells only whether a connection string is set |
| `StorageSettings.ReadHidesConnectionString` | sheaf/routers/settings.py:21-27 | two settings that differ only in which connection string is set read the same, so the string never leaks |
| `StorageSettings.UserStorage.constructor` | sheaf/models/user.py:23-25 | a new user is on local storage with no Azure settings |
| `StorageSettings.UserStorage.GetStorageSettings` | sheaf/routers/settings.py:21-27 | the current read model |
| `StorageSettings.UserStorage.UpdateStorageSettings` | sheaf/routers/settings.py:30-83 | a refused update leaves all three columns as they were; an accepted one assigns them together and returns the new read model |
| `StorageSettings.SettingsScenarios` | tests/test_settings.py:24-59 | Azure without credentials and an unknown backend are refused; a container saved with the local backend reads back with no connection string set |

## Left out

- **Asynchrony and concurrency.** Every awaited call completes before the next step. Interleavings are not modelled: two passes at once, or a progress write landing in the middle of a pass. `OfflineSync.LaterEntriesSurvive` states only the part about keys.
- **IndexedDB failures.** Quota errors and aborted transactions are not modelled. Each transaction either runs whole or is not started.
- **Timers.** The 5-second poll interval and the 1-second debounce of `saveProgress` are left out. The model has one method per tick (`PollPendingCount`) and per debounced call (`SaveProgress`).
- **Intermediate React state.** `isSaving` and `isSyncing` hold a value while the call runs; the model keeps only the value after the call. Other left-out render and effect details:
  - the hook's `useLiveQuery` renders `[]` until its first result;
  - the `cancelled` flag of the load effect;
  - the save-on-unmount cleanup.
- **ReaderPage outside the core.** Rendering, zoom, fullscreen and the `Escape`/`f` keys are left out, as are the login redirect when no token is stored and the dependency arrays of the effects.
- **Numbers.** JavaScript numbers are modelled as `int`, or as `real` for touch coordinates. `parseInt` failing (NaN) is the `None` input of `TypedPage`.
- **Errors.** An error whose message the page would show comes in as `Option<string>`. `None` stands for a thrown value that is not an `Error`.
- **The server load.** The metadata and bytes of a server load come in as one argument, so the two requests succeed or fail together. The progress read is the `stored` argument; its failure is `None`.
- **The `id !== undefined` filter** in `offlineSync.ts`. It always passes for stored entries (keys are `nat`), so it is not modelled.
- **`OfflineContext.tsx`.** It only passes the hook down. Components that consume the hook are outside the model.
- **Reading progress.**
  - The row's uuid primary key, the foreign keys and the response schema are left out.
  - SQL leaves the order of rows with equal `last_read_at` unspecified. The model breaks ties by document id; contracts state only that `last_read_at` does not increase.
  - `last_read_at` is set by `onupdate`. An update that leaves both columns as they were emits no UPDATE, so the stamp stays; the model follows that.
- **Storage settings.**
  - `_test_azure_connection` and the Azure SDK are the `AzureProbe` parameter. The probe's own behaviour, such as the container call and timeouts, is not modelled.
  - The pydantic schemas are not part of this model. The update's fields (backend, account name, account key, container name, each optional except the backend) are taken from how the router reads them.
  - The `elif` that would clear the connection string is modelled as written. `StorageSettings.ClearBranchUnreachable` proves it dead.
  - The 20/500/200-character column limits are not modelled.
- **Authentication.** The current user comes from `get_current_user`, which is outside the model. Every operation takes the user's id, or works on that user's row.
- `OfflineDb.OfflineStore.GetOfflineStorageUsage`: the byte total is the sum of `size_bytes` over the rows. Its contract states only the document count; `OfflineDb.PutDocBytes` states how a put changes the total.
