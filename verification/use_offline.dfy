/** The `useOffline` hook (frontend/src/hooks/useOffline.ts): the component state that
    sits between the pages and the offline store. Each piece of React state is a field;
    each callback and event handler is a method. `navigator.onLine` at the time of a call
    is the parameter `browserOnline`, distinct from the `isOnline` field that the browser's
    events maintain. */
module UseOffline {
  import opened Wrappers
  import opened Ordering
  import opened OfflineDb
  import opened OfflineSync

  /** The order of `documents.orderBy('savedAt').reverse()`: newest `savedAt` first; rows
      saved at the same instant come in descending key order. */
  predicate SavedAfter(a: OfflineDocument, b: OfflineDocument) {
    a.savedAt > b.savedAt || (a.savedAt == b.savedAt && Below(b.info.id, a.info.id))
  }

  lemma SavedAfterTransitive()
    ensures Transitive(SavedAfter)
  {
    forall a, b, c | SavedAfter(a, b) && SavedAfter(b, c) ensures SavedAfter(a, c) {
      if a.savedAt == b.savedAt == c.savedAt {
        BelowTransitive(c.info.id, b.info.id, a.info.id);
      }
    }
  }

  /** The live query behind `offlineDocuments`. */
  function OfflineDocuments(docs: seq<OfflineDocument>): (r: seq<OfflineDocument>)
    ensures multiset(r) == multiset(docs)
    ensures KeyOrdered(docs) ==> Pairwise(r, SavedAfter)
  {
    var r := SortBy(docs, SavedAfter);
    assert KeyOrdered(docs) ==> Pairwise(r, SavedAfter) by {
      if KeyOrdered(docs) {
        SavedAfterTransitive();
        forall i, j | 0 <= i < j < |docs| ensures SavedAfter(docs[i], docs[j]) || SavedAfter(docs[j], docs[i]) {
          assert Below(docs[i].info.id, docs[j].info.id);
        }
        SortBySorted(docs, SavedAfter);
      }
    }
    r
  }

  /** `offlineDocIds`: the ids of the live query's rows, in its order. */
  function OfflineDocIds(docs: seq<OfflineDocument>): (ids: seq<string>)
    ensures |ids| == |docs|
    ensures forall id :: id in ids <==> id in CachedIds(docs)
  {
    var sorted := OfflineDocuments(docs);
    var ids := seq(|sorted|, i requires 0 <= i < |sorted| => sorted[i].info.id);
    assert |sorted| == |multiset(sorted)| == |docs|;
    assert forall id :: id in ids ==> id in CachedIds(docs) by {
      forall id | id in ids ensures id in CachedIds(docs) {
        var i :| 0 <= i < |ids| && ids[i] == id;
        assert sorted[i] in multiset(docs);
      }
    }
    assert forall id :: id in CachedIds(docs) ==> id in ids by {
      forall id | id in CachedIds(docs) ensures id in ids {
        var d :| d in docs && d.info.id == id;
        assert d in multiset(sorted);
        var i :| 0 <= i < |sorted| && sorted[i] == d;
        assert ids[i] == id;
      }
    }
    ids
  }

  class OfflineCoordinator {
    var isOnline: bool
    var pendingSyncCount: nat
    var isSyncing: bool
    var isSaving: Option<string>
    var storageUsage: StorageUsage
    var syncAttempted: bool      // the `syncAttempted` ref: a latch that is never cleared
    const store: OfflineStore
    ghost var onlineTriggers: nat  // passes started by an `online` event so far

    ghost predicate Valid()
      reads this, store
    {
      && store.Valid()
      && onlineTriggers == (if syncAttempted then 1 else 0)
    }

    /** The hook's first render: `isOnline` starts at `navigator.onLine`, everything else empty. */
    constructor (store: OfflineStore, browserOnline: bool)
      requires store.Valid()
      ensures Valid()
      ensures this.store == store
      ensures isOnline == browserOnline && pendingSyncCount == 0 && !isSyncing && isSaving == None
      ensures storageUsage == StorageUsage(0, 0) && !syncAttempted && onlineTriggers == 0
    {
      this.store := store;
      isOnline := browserOnline;
      pendingSyncCount := 0;
      isSyncing := false;
      isSaving := None;
      storageUsage := StorageUsage(0, 0);
      syncAttempted := false;
      onlineTriggers := 0;
    }

    /** `syncNow`: refused (0, 0) while the browser is offline or a pass is running;
        otherwise one reconciliation pass, then the count is re-read and `isSyncing` is
        false again (its value during the pass is not modelled). */
    method SyncNow(browserOnline: bool, remote: Remote) returns (synced: nat, failed: nat, ghost results: seq<PushResult>)
      requires Valid()
      modifies this`isSyncing, this`pendingSyncCount, store`pendingProgress
      ensures Valid()
      ensures !browserOnline || old(isSyncing) ==>
        && synced == 0 && failed == 0 && results == []
        && isSyncing == old(isSyncing) && pendingSyncCount == old(pendingSyncCount)
        && store.pendingProgress == old(store.pendingProgress)
      ensures browserOnline && !old(isSyncing) ==>
        && !isSyncing
        && results == Attempts(old(store.GetPendingProgressUpdates()), remote)
        && synced == Summarize(results).synced && failed == Summarize(results).failed
        && store.pendingProgress == WithoutIds(old(store.pendingProgress), set id | id in SyncedIds(results))
        && pendingSyncCount == |store.pendingProgress|
      ensures synced + failed == |results|
    {
      if !browserOnline || isSyncing {
        return 0, 0, [];
      }
      ghost var snapshot := store.GetPendingProgressUpdates();
      var result;
      result, results := SyncPendingProgress(store, remote);
      assert results == Attempts(snapshot, remote);
      pendingSyncCount := GetPendingSyncCount(store);
      isSyncing := false;
      synced, failed := result.synced, result.failed;
    }

    /** The `online` event: marks the hook online and, the first time only, sets the latch
        and runs `syncNow`; `results` is that pass's results (empty when no pass ran or it
        was refused). `syncNow` reads neither `isOnline` nor the latch, so the order of the
        writes does not change the outcome; the model runs the pass first. */
    method HandleOnline(browserOnline: bool, remote: Remote) returns (ghost results: seq<PushResult>)
      requires Valid()
      modifies this`isOnline, this`syncAttempted, this`onlineTriggers
      modifies this`isSyncing, this`pendingSyncCount, store`pendingProgress
      ensures Valid()
      ensures isOnline && syncAttempted
      ensures onlineTriggers <= 1
      ensures onlineTriggers == old(onlineTriggers) + (if old(syncAttempted) then 0 else 1)
      ensures old(syncAttempted) || !browserOnline || old(isSyncing) ==>
        && results == []
        && store.pendingProgress == old(store.pendingProgress)
        && pendingSyncCount == old(pendingSyncCount) && isSyncing == old(isSyncing)
      ensures !old(syncAttempted) && browserOnline && !old(isSyncing) ==>
        && !isSyncing
        && results == Attempts(old(store.GetPendingProgressUpdates()), remote)
        && store.pendingProgress == WithoutIds(old(store.pendingProgress), set id | id in SyncedIds(results))
        && pendingSyncCount == |store.pendingProgress|
    {
      results := [];
      if !syncAttempted {
        var _, _, pass := SyncNow(browserOnline, remote);
        results := pass;
        syncAttempted := true;
        onlineTriggers := onlineTriggers + 1;
      }
      isOnline := true;
    }

    /** The `offline` event: only the flag changes. */
    method HandleOffline()
      modifies this`isOnline
      ensures !isOnline
    {
      isOnline := false;
    }

    /** One tick of the 5-second poll (and the mount-time read): copies the queue length. */
    method PollPendingCount()
      modifies this`pendingSyncCount
      ensures pendingSyncCount == |store.pendingProgress|
    {
      pendingSyncCount := GetPendingSyncCount(store);
    }

    /** The effect that re-reads the storage usage whenever the cached documents change. */
    method RefreshStorageUsage()
      requires Valid()
      modifies this`storageUsage
      ensures storageUsage.documentCount == |CachedIds(store.documents)|
      ensures storageUsage.totalBytes == TotalBytes(store.documents)
    {
      storageUsage := store.GetOfflineStorageUsage();
    }

    /** `isDocumentOffline`: membership in the live query's ids. */
    function IsDocumentOffline(docId: string): (b: bool)
      reads this, store
      ensures b <==> docId in CachedIds(store.documents)
    {
      docId in OfflineDocIds(store.documents)
    }

    /** `saveOffline`: fetch the PDF (`fetched`, None when the request fails), then store it
        with the document; `isSaving` is back to null afterwards either way (the document id
        it holds while the call runs is not modelled). */
    method SaveOffline(doc: DocumentInfo, fetched: Option<Bytes>, now: int) returns (saved: bool)
      requires Valid()
      modifies this`isSaving, store`documents, store`pdfs
      ensures Valid()
      ensures isSaving == None
      ensures saved <==> fetched.Some?
      ensures fetched.None? ==> store.documents == old(store.documents) && store.pdfs == old(store.pdfs)
      ensures fetched.Some? ==>
        && store.documents == PutDoc(old(store.documents), OfflineDocument(doc, now))
        && store.pdfs == old(store.pdfs)[doc.id := OfflinePdf(doc.id, fetched.value, now)]
        && store.GetOfflineDocument(doc.id) == Some(CachedCopy(OfflineDocument(doc, now), fetched.value))
        && IsDocumentOffline(doc.id)
    {
      if fetched.Some? {
        store.SaveDocumentForOffline(doc, fetched.value, now);
        assert doc.id in CachedIds(store.documents);
      }
      isSaving := None;
      saved := fetched.Some?;
    }

    /** `removeOffline`. */
    method RemoveOffline(docId: string)
      requires Valid()
      modifies store`documents, store`pdfs
      ensures Valid()
      ensures !IsDocumentOffline(docId)
      ensures store.GetOfflineDocument(docId) == None
      ensures forall k :: k != docId ==> store.GetOfflineDocument(k) == old(store.GetOfflineDocument(k))
    {
      store.RemoveOfflineDocument(docId);
    }

    /** `getOfflinePdf`: the stored bytes, or null unless both records are present. */
    function GetOfflinePdf(docId: string): (r: Option<Bytes>)
      reads this, store
      ensures r.Some? <==> docId in CachedIds(store.documents) && docId in store.pdfs
      ensures r.Some? ==> r.value == store.pdfs[docId].pdfData
    {
      match store.GetOfflineDocument(docId)
      case Some(copy) => Some(copy.pdfData)
      case None => None
    }

    /** `saveProgressOffline`: queue (coalescing) and re-read the count. */
    method SaveProgressOffline(docId: string, currentPage: int, totalPages: int, now: int)
      requires Valid()
      modifies store`pendingProgress, store`nextId, this`pendingSyncCount
      ensures Valid()
      ensures store.pendingProgress == Enqueue(old(store.pendingProgress), old(store.nextId), docId, currentPage, totalPages, now)
      ensures store.nextId == old(store.nextId) + 1
      ensures PendingProgressSync(old(store.nextId), docId, currentPage, totalPages, now) in store.pendingProgress
      ensures forall e :: e in store.pendingProgress && e.documentId == docId ==>
                e == PendingProgressSync(old(store.nextId), docId, currentPage, totalPages, now)
      ensures pendingSyncCount == |store.pendingProgress|
    {
      store.QueueProgressUpdate(docId, currentPage, totalPages, now);
      pendingSyncCount := GetPendingSyncCount(store);
    }
  }
}
