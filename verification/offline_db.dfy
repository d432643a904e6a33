/** The browser-side offline store (frontend/src/lib/offlineDb.ts): cached document metadata,
    the cached PDF bytes, and the queue of reading-progress updates that have not yet reached
    the server. Each Dexie table becomes a field; each transaction becomes one method. */
module OfflineDb {
  import opened Wrappers
  import opened Ordering

  type Bytes = seq<bv8>

  /** Document metadata as the server lists it (OfflineDocument without `savedAt`). */
  datatype DocumentInfo = DocumentInfo(
    id: string,
    filename: string,
    originalName: string,
    contentType: string,
    sizeBytes: int,
    storageBackend: string,
    isPublic: bool,
    downloadCount: int,
    createdAt: string,
    ownerId: string)

  /** A row of the `documents` table. */
  datatype OfflineDocument = OfflineDocument(info: DocumentInfo, savedAt: int)

  /** A row of the `pdfs` table, keyed by `documentId`. */
  datatype OfflinePdf = OfflinePdf(documentId: string, pdfData: Bytes, savedAt: int)

  /** A row of the `pendingProgress` table; `id` is the auto-increment key. */
  datatype PendingProgressSync = PendingProgressSync(
    id: nat,
    documentId: string,
    currentPage: int,
    totalPages: int,
    updatedAt: int)

  /** What `getOfflineDocument` returns when both records are present. */
  datatype CachedCopy = CachedCopy(document: OfflineDocument, pdfData: Bytes)

  datatype StorageUsage = StorageUsage(documentCount: nat, totalBytes: int)

  // ---------------------------------------------------------------------------
  // The `documents` table: rows in primary-key (id) order.

  /** Dexie keeps a table in primary-key order, and keys are unique. */
  ghost predicate KeyOrdered(docs: seq<OfflineDocument>) {
    forall i, j :: 0 <= i < j < |docs| ==> Below(docs[i].info.id, docs[j].info.id)
  }

  function CachedIds(docs: seq<OfflineDocument>): set<string> {
    set d | d in docs :: d.info.id
  }

  lemma CachedIdsCons(d: OfflineDocument, docs: seq<OfflineDocument>)
    ensures CachedIds([d] + docs) == {d.info.id} + CachedIds(docs)
  {
    assert forall e :: e in [d] + docs <==> e == d || e in docs;
  }

  /** `documents.get(id)`: the row with key `id`, if any. */
  function FindDoc(docs: seq<OfflineDocument>, id: string): (r: Option<OfflineDocument>)
    ensures r.Some? <==> id in CachedIds(docs)
    ensures r.Some? ==> r.value in docs && r.value.info.id == id
  {
    if docs == [] then None
    else
      assert docs == [docs[0]] + docs[1..];
      CachedIdsCons(docs[0], docs[1..]);
      if docs[0].info.id == id then Some(docs[0]) else FindDoc(docs[1..], id)
  }

  /** `documents.put(d)`: replaces the row with d's key, or inserts d at its key position. */
  function PutDoc(docs: seq<OfflineDocument>, d: OfflineDocument): (r: seq<OfflineDocument>)
    ensures CachedIds(r) == CachedIds(docs) + {d.info.id}
  {
    if docs == [] then
      CachedIdsCons(d, []);
      [d]
    else
      assert docs == [docs[0]] + docs[1..];
      CachedIdsCons(docs[0], docs[1..]);
      if docs[0].info.id == d.info.id then
        CachedIdsCons(d, docs[1..]);
        [d] + docs[1..]
      else if Below(d.info.id, docs[0].info.id) then
        CachedIdsCons(d, docs);
        [d] + docs
      else
        CachedIdsCons(docs[0], PutDoc(docs[1..], d));
        [docs[0]] + PutDoc(docs[1..], d)
  }

  /** `documents.delete(id)`: drops the row with key `id`; absent keys are ignored. */
  function DeleteDoc(docs: seq<OfflineDocument>, id: string): (r: seq<OfflineDocument>)
    ensures forall e :: e in r <==> e in docs && e.info.id != id
    ensures CachedIds(r) == CachedIds(docs) - {id}
  {
    Filter(docs, (e: OfflineDocument) => e.info.id != id)
  }

  /** The `reduce` over the table that sums the declared sizes. */
  function TotalBytes(docs: seq<OfflineDocument>): (total: int)
    ensures (forall d :: d in docs ==> d.info.sizeBytes >= 0) ==>
      total >= 0 && forall d :: d in docs ==> d.info.sizeBytes <= total
  {
    if docs == [] then 0 else docs[0].info.sizeBytes + TotalBytes(docs[1..])
  }

  /** After a put, a lookup of the put key finds the new row; other keys are unaffected. */
  lemma {:induction false} PutDocFind(docs: seq<OfflineDocument>, d: OfflineDocument, k: string)
    ensures FindDoc(PutDoc(docs, d), k) == if k == d.info.id then Some(d) else FindDoc(docs, k)
  {
    if docs != [] && docs[0].info.id != d.info.id && !Below(d.info.id, docs[0].info.id) {
      PutDocFind(docs[1..], d, k);
    }
  }

  /** A put keeps the table in key order. */
  lemma {:induction false} PutDocOrdered(docs: seq<OfflineDocument>, d: OfflineDocument)
    requires KeyOrdered(docs)
    ensures KeyOrdered(PutDoc(docs, d))
  {
    if docs == [] {
    } else if docs[0].info.id == d.info.id {
    } else if Below(d.info.id, docs[0].info.id) {
      forall j | 0 < j < |docs|
        ensures Below(d.info.id, docs[j].info.id)
      {
        BelowTransitive(d.info.id, docs[0].info.id, docs[j].info.id);
      }
    } else {
      BelowTotal(d.info.id, docs[0].info.id);
      var tail := docs[1..];
      PutDocOrdered(tail, d);
      var p := PutDoc(tail, d);
      forall k | 0 <= k < |p|
        ensures Below(docs[0].info.id, p[k].info.id)
      {
        assert p[k].info.id in CachedIds(p);
        if p[k].info.id != d.info.id {
          var e :| e in tail && e.info.id == p[k].info.id;
          var m :| 0 <= m < |tail| && tail[m] == e;
          assert docs[m + 1] == e;
        }
      }
    }
  }

  /** In a key-ordered table a key occurs at most once, so `documentCount` counts
      distinct cached documents. */
  lemma {:induction false} KeyOrderedDistinct(docs: seq<OfflineDocument>)
    requires KeyOrdered(docs)
    ensures |CachedIds(docs)| == |docs|
  {
    if docs != [] {
      var tail := docs[1..];
      assert docs == [docs[0]] + tail;
      CachedIdsCons(docs[0], tail);
      KeyOrderedTail(docs);
      KeyOrderedDistinct(tail);
      if tail != [] {
        assert tail[0] == docs[1];
        AbsentBeforeFirst(tail, docs[0].info.id);
      }
      assert docs[0].info.id !in CachedIds(tail);
    }
  }

  /** The rows after a put: the new row, and every old row with another key. */
  lemma {:induction false} PutDocMembers(docs: seq<OfflineDocument>, d: OfflineDocument)
    requires KeyOrdered(docs)
    ensures forall e :: e in PutDoc(docs, d) <==> e == d || (e in docs && e.info.id != d.info.id)
  {
    if docs == [] {
    } else if docs[0].info.id == d.info.id {
      forall e | e in docs[1..] ensures e.info.id != d.info.id {
        var m :| 0 <= m < |docs[1..]| && docs[1..][m] == e;
        assert Below(docs[0].info.id, docs[m + 1].info.id);
        BelowIrreflexive(d.info.id);
      }
      assert docs == [docs[0]] + docs[1..];
    } else if Below(d.info.id, docs[0].info.id) {
      forall e | e in docs ensures e.info.id != d.info.id {
        var m :| 0 <= m < |docs| && docs[m] == e;
        if m > 0 {
          BelowTransitive(d.info.id, docs[0].info.id, docs[m].info.id);
        }
        BelowIrreflexive(d.info.id);
      }
    } else {
      PutDocMembers(docs[1..], d);
      assert docs == [docs[0]] + docs[1..];
    }
  }

  lemma KeyOrderedTail(docs: seq<OfflineDocument>)
    requires KeyOrdered(docs) && docs != []
    ensures KeyOrdered(docs[1..])
  {
    forall i, j | 0 <= i < j < |docs[1..]|
      ensures Below(docs[1..][i].info.id, docs[1..][j].info.id)
    {
      assert docs[1..][i] == docs[i + 1] && docs[1..][j] == docs[j + 1];
    }
  }

  /** A key below the first key of a key-ordered table is not in it. */
  lemma AbsentBeforeFirst(docs: seq<OfflineDocument>, k: string)
    requires KeyOrdered(docs) && docs != [] && Below(k, docs[0].info.id)
    ensures k !in CachedIds(docs)
  {
    if k in CachedIds(docs) {
      var e :| e in docs && e.info.id == k;
      var m :| 0 <= m < |docs| && docs[m] == e;
      if m > 0 {
        BelowTransitive(k, docs[0].info.id, docs[m].info.id);
      }
      BelowIrreflexive(k);
    }
  }

  /** A put of a new key adds one row; a put of a present key adds none. */
  lemma {:induction false} PutDocCount(docs: seq<OfflineDocument>, d: OfflineDocument)
    requires KeyOrdered(docs)
    ensures |PutDoc(docs, d)| == |docs| + (if d.info.id in CachedIds(docs) then 0 else 1)
  {
    if docs == [] {
    } else if docs[0].info.id == d.info.id {
      assert PutDoc(docs, d) == [d] + docs[1..];
      assert docs[0] in docs;
    } else if Below(d.info.id, docs[0].info.id) {
      assert PutDoc(docs, d) == [d] + docs;
      AbsentBeforeFirst(docs, d.info.id);
    } else {
      assert PutDoc(docs, d) == [docs[0]] + PutDoc(docs[1..], d);
      KeyOrderedTail(docs);
      PutDocCount(docs[1..], d);
      assert docs == [docs[0]] + docs[1..];
      CachedIdsCons(docs[0], docs[1..]);
      assert d.info.id in CachedIds(docs) <==> d.info.id in CachedIds(docs[1..]);
    }
  }

  /** The byte total after a put trades the replaced row's size for the new one. */
  lemma {:induction false} PutDocBytes(docs: seq<OfflineDocument>, d: OfflineDocument)
    requires KeyOrdered(docs)
    ensures TotalBytes(PutDoc(docs, d)) ==
      TotalBytes(docs) + d.info.sizeBytes
      - (match FindDoc(docs, d.info.id) case Some(e) => e.info.sizeBytes case None => 0)
  {
    if docs == [] {
    } else if docs[0].info.id == d.info.id {
      assert PutDoc(docs, d) == [d] + docs[1..];
    } else if Below(d.info.id, docs[0].info.id) {
      AbsentBeforeFirst(docs, d.info.id);
      assert PutDoc(docs, d) == [d] + docs;
    } else {
      KeyOrderedTail(docs);
      PutDocBytes(docs[1..], d);
      var p := PutDoc(docs[1..], d);
      assert PutDoc(docs, d) == [docs[0]] + p;
      assert ([docs[0]] + p)[1..] == p;
    }
  }

  /** A delete keeps the table in key order; deleting an absent key changes nothing. */
  lemma DeleteDocOrdered(docs: seq<OfflineDocument>, id: string)
    requires KeyOrdered(docs)
    ensures KeyOrdered(DeleteDoc(docs, id))
  {
    FilterPairwise(docs, (e: OfflineDocument) => e.info.id != id,
      (a: OfflineDocument, b: OfflineDocument) => Below(a.info.id, b.info.id));
  }

  lemma {:induction false} DeleteAbsent(docs: seq<OfflineDocument>, id: string)
    requires id !in CachedIds(docs)
    ensures DeleteDoc(docs, id) == docs
  {
    if docs != [] {
      assert docs == [docs[0]] + docs[1..];
      CachedIdsCons(docs[0], docs[1..]);
      DeleteAbsent(docs[1..], id);
    }
  }

  /** After a delete, the deleted key is not found; other keys are unaffected. */
  lemma {:induction false} DeleteDocFind(docs: seq<OfflineDocument>, id: string, k: string)
    ensures FindDoc(DeleteDoc(docs, id), k) == if k == id then None else FindDoc(docs, k)
  {
    if docs != [] {
      DeleteDocFind(docs[1..], id, k);
    }
  }

  // ---------------------------------------------------------------------------
  // The `pendingProgress` table: rows in auto-increment key order.

  /** The queue's invariant: keys strictly increasing and all below the key generator's
      next value (which starts at 1), and at most one entry per document. */
  ghost predicate QueueValid(q: seq<PendingProgressSync>, nextId: nat) {
    && 1 <= nextId
    && Pairwise(q, IdBefore)
    && (forall i :: 0 <= i < |q| ==> 1 <= q[i].id < nextId)
    && Pairwise(q, DifferentDocument)
  }

  predicate IdBefore(a: PendingProgressSync, b: PendingProgressSync) {
    a.id < b.id
  }

  predicate DifferentDocument(a: PendingProgressSync, b: PendingProgressSync) {
    a.documentId != b.documentId
  }

  /** The `orderBy('updatedAt')` order; Dexie breaks ties by primary key. */
  predicate UpdatedBefore(a: PendingProgressSync, b: PendingProgressSync) {
    a.updatedAt < b.updatedAt || (a.updatedAt == b.updatedAt && a.id < b.id)
  }

  /** `where('documentId').equals(documentId).delete()`. */
  function WithoutDocument(q: seq<PendingProgressSync>, documentId: string): (r: seq<PendingProgressSync>)
    ensures forall e :: e in r <==> e in q && e.documentId != documentId
  {
    Filter(q, (e: PendingProgressSync) => e.documentId != documentId)
  }

  /** `bulkDelete(ids)`: keys that are not present are ignored. */
  function WithoutIds(q: seq<PendingProgressSync>, ids: set<nat>): (r: seq<PendingProgressSync>)
    ensures forall e :: e in r <==> e in q && e.id !in ids
  {
    Filter(q, (e: PendingProgressSync) => e.id !in ids)
  }

  /** Bulk deletion of keys that are not present leaves the queue as it was. */
  lemma WithoutAbsentIds(q: seq<PendingProgressSync>, ids: set<nat>)
    requires forall e :: e in q ==> e.id !in ids
    ensures WithoutIds(q, ids) == q
  {
    FilterKeepsAll(q, (e: PendingProgressSync) => e.id !in ids);
  }

  /** The coalescing enqueue: drop the document's queued entries, then add one with the
      generator's next key. */
  function Enqueue(q: seq<PendingProgressSync>, nextId: nat, documentId: string,
                   currentPage: int, totalPages: int, now: int): (r: seq<PendingProgressSync>)
    ensures forall e :: e in r <==>
      e == PendingProgressSync(nextId, documentId, currentPage, totalPages, now) || (e in q && e.documentId != documentId)
    ensures r[|r| - 1] == PendingProgressSync(nextId, documentId, currentPage, totalPages, now)
  {
    WithoutDocument(q, documentId) + [PendingProgressSync(nextId, documentId, currentPage, totalPages, now)]
  }

  /** Bulk deletion keeps the queue invariant. */
  lemma WithoutIdsValid(q: seq<PendingProgressSync>, nextId: nat, ids: set<nat>)
    requires QueueValid(q, nextId)
    ensures QueueValid(WithoutIds(q, ids), nextId)
  {
    var keep := (e: PendingProgressSync) => e.id !in ids;
    FilterPairwise(q, keep, IdBefore);
    FilterPairwise(q, keep, DifferentDocument);
    var r := WithoutIds(q, ids);
    forall i | 0 <= i < |r| ensures 1 <= r[i].id < nextId {
      assert r[i] in q;
    }
  }

  /** Coalescing: after an enqueue the document has exactly one entry, carrying the new
      values and a key above every key handed out before; other documents' entries are
      unchanged, and the queue invariant holds with the generator advanced. */
  lemma {:induction false} EnqueueCoalesces(q: seq<PendingProgressSync>, nextId: nat, documentId: string,
                                            currentPage: int, totalPages: int, now: int)
    requires QueueValid(q, nextId)
    ensures var r := Enqueue(q, nextId, documentId, currentPage, totalPages, now);
      && QueueValid(r, nextId + 1)
      && PendingProgressSync(nextId, documentId, currentPage, totalPages, now) in r
      && (forall e :: e in r && e.documentId == documentId ==>
            e == PendingProgressSync(nextId, documentId, currentPage, totalPages, now))
      && (forall e: PendingProgressSync :: e.documentId != documentId ==> (e in r <==> e in q))
      && (forall e :: e in q ==> e.id < nextId)
  {
    var added := PendingProgressSync(nextId, documentId, currentPage, totalPages, now);
    var keep := (e: PendingProgressSync) => e.documentId != documentId;
    var w := WithoutDocument(q, documentId);
    var r := w + [added];
    FilterPairwise(q, keep, IdBefore);
    FilterPairwise(q, keep, DifferentDocument);
    forall i | 0 <= i < |w| ensures 1 <= w[i].id < nextId && w[i].documentId != documentId {
      assert w[i] in q;
    }
    forall e | e in q ensures e.id < nextId {
      var m :| 0 <= m < |q| && q[m] == e;
    }
    assert Pairwise(r, IdBefore);
    assert Pairwise(r, DifferentDocument);
  }

  /** The queue in `orderBy('updatedAt')` order is sorted strictly (ties broken by key). */
  lemma SnapshotSorted(q: seq<PendingProgressSync>)
    requires Pairwise(q, IdBefore)
    ensures Pairwise(SortBy(q, UpdatedBefore), UpdatedBefore)
  {
    assert ComparableOn(q, UpdatedBefore) by {
      forall i, j | 0 <= i < j < |q|
        ensures UpdatedBefore(q[i], q[j]) || UpdatedBefore(q[j], q[i])
      {
      }
    }
    SortBySorted(q, UpdatedBefore);
  }

  /** Distinct entries of a key-ordered queue have distinct keys. */
  lemma DistinctEntriesDistinctKeys(q: seq<PendingProgressSync>, a: PendingProgressSync, b: PendingProgressSync)
    requires Pairwise(q, IdBefore)
    requires a in q && b in q && a != b
    ensures a.id != b.id
  {
    var i :| 0 <= i < |q| && q[i] == a;
    var j :| 0 <= j < |q| && q[j] == b;
    assert i < j || j < i;
  }

  // ---------------------------------------------------------------------------
  // The two document tables together.

  /** Every document row has a PDF row and vice versa, under the same key and with the
      same `savedAt`. */
  ghost predicate Paired(docs: seq<OfflineDocument>, pdfs: map<string, OfflinePdf>) {
    && CachedIds(docs) == pdfs.Keys
    && (forall k :: k in pdfs ==> pdfs[k].documentId == k)
    && (forall d :: d in docs ==> d.info.id in pdfs && pdfs[d.info.id].savedAt == d.savedAt)
  }

  /** Writing both rows with one `savedAt` keeps the pairing. */
  lemma PutPaired(docs: seq<OfflineDocument>, pdfs: map<string, OfflinePdf>, d: OfflineDocument, pdfData: Bytes)
    requires KeyOrdered(docs) && Paired(docs, pdfs)
    ensures Paired(PutDoc(docs, d), pdfs[d.info.id := OfflinePdf(d.info.id, pdfData, d.savedAt)])
  {
    PutDocMembers(docs, d);
  }

  /** Deleting both rows keeps the pairing. */
  lemma DeletePaired(docs: seq<OfflineDocument>, pdfs: map<string, OfflinePdf>, id: string)
    requires Paired(docs, pdfs)
    ensures Paired(DeleteDoc(docs, id), pdfs - {id})
  {
  }

  /** The lookup of `getOfflineDocument` over the two tables. */
  function Lookup(docs: seq<OfflineDocument>, pdfs: map<string, OfflinePdf>, id: string): (r: Option<CachedCopy>)
    ensures r.Some? <==> id in CachedIds(docs) && id in pdfs
    ensures r.Some? ==> r.value.document in docs && r.value.document.info.id == id && r.value.pdfData == pdfs[id].pdfData
  {
    var document := FindDoc(docs, id);
    if document.None? || id !in pdfs then None
    else Some(CachedCopy(document.value, pdfs[id].pdfData))
  }

  lemma LookupAfterPut(docs: seq<OfflineDocument>, pdfs: map<string, OfflinePdf>, d: OfflineDocument, pdfData: Bytes)
    ensures var pdfs' := pdfs[d.info.id := OfflinePdf(d.info.id, pdfData, d.savedAt)];
      && Lookup(PutDoc(docs, d), pdfs', d.info.id) == Some(CachedCopy(d, pdfData))
      && forall k :: k != d.info.id ==> Lookup(PutDoc(docs, d), pdfs', k) == Lookup(docs, pdfs, k)
  {
    forall k ensures FindDoc(PutDoc(docs, d), k) == if k == d.info.id then Some(d) else FindDoc(docs, k) {
      PutDocFind(docs, d, k);
    }
  }

  lemma LookupAfterDelete(docs: seq<OfflineDocument>, pdfs: map<string, OfflinePdf>, id: string)
    ensures Lookup(DeleteDoc(docs, id), pdfs - {id}, id) == None
    ensures forall k :: k != id ==> Lookup(DeleteDoc(docs, id), pdfs - {id}, k) == Lookup(docs, pdfs, k)
  {
    forall k ensures FindDoc(DeleteDoc(docs, id), k) == if k == id then None else FindDoc(docs, k) {
      DeleteDocFind(docs, id, k);
    }
  }

  // ---------------------------------------------------------------------------

  /** The Dexie database `sheaf-offline` with its three tables. */
  class OfflineStore {
    var documents: seq<OfflineDocument>
    var pdfs: map<string, OfflinePdf>
    var pendingProgress: seq<PendingProgressSync>
    var nextId: nat  // the auto-increment key generator of `pendingProgress`

    /** A document row and its PDF row exist together and carry the same `savedAt`;
        the queue keeps its invariant. */
    ghost predicate Valid()
      reads this
    {
      && KeyOrdered(documents)
      && Paired(documents, pdfs)
      && QueueValid(pendingProgress, nextId)
    }

    constructor ()
      ensures Valid()
      ensures documents == [] && pdfs == map[] && pendingProgress == [] && nextId == 1
    {
      documents := [];
      pdfs := map[];
      pendingProgress := [];
      nextId := 1;
    }

    /** `getOfflineDocument`: null unless both the document and its PDF are stored. */
    function GetOfflineDocument(documentId: string): (r: Option<CachedCopy>)
      reads this
      ensures r.Some? <==> documentId in CachedIds(documents) && documentId in pdfs
      ensures r.Some? ==> && r.value.document in documents
                          && r.value.document.info.id == documentId
                          && r.value.pdfData == pdfs[documentId].pdfData
    {
      Lookup(documents, pdfs, documentId)
    }

    /** `getAllOfflineDocumentIds`: the cached ids, in key order. */
    function GetAllOfflineDocumentIds(): (ids: seq<string>)
      reads this`documents
      ensures |ids| == |documents|
      ensures forall id :: id in ids <==> id in CachedIds(documents)
      ensures KeyOrdered(documents) ==> Pairwise(ids, Below)
    {
      var docs := documents;
      var ids := seq(|docs|, i requires 0 <= i < |docs| => docs[i].info.id);
      assert forall id :: id in ids ==> id in CachedIds(docs) by {
        forall id | id in ids ensures id in CachedIds(docs) {
          var i :| 0 <= i < |ids| && ids[i] == id;
          assert docs[i] in docs;
        }
      }
      assert forall id :: id in CachedIds(docs) ==> id in ids by {
        forall id | id in CachedIds(docs) ensures id in ids {
          var d :| d in docs && d.info.id == id;
          var i :| 0 <= i < |docs| && docs[i] == d;
          assert ids[i] == id;
        }
      }
      ids
    }

    /** `getOfflineStorageUsage`: reads the documents table only, never the PDFs. */
    function GetOfflineStorageUsage(): (u: StorageUsage)
      reads this`documents
      ensures KeyOrdered(documents) ==> u.documentCount == |CachedIds(documents)|
    {
      assert KeyOrdered(documents) ==> |documents| == |CachedIds(documents)| by {
        if KeyOrdered(documents) {
          KeyOrderedDistinct(documents);
        }
      }
      StorageUsage(|documents|, TotalBytes(documents))
    }

    /** `getPendingProgressUpdates`: the whole queue, oldest `updatedAt` first. */
    function GetPendingProgressUpdates(): (r: seq<PendingProgressSync>)
      reads this`pendingProgress
      ensures multiset(r) == multiset(pendingProgress)
      ensures |r| == |pendingProgress|
      ensures Pairwise(pendingProgress, IdBefore) ==> Pairwise(r, UpdatedBefore)
    {
      var r := SortBy(pendingProgress, UpdatedBefore);
      assert |r| == |multiset(r)| == |multiset(pendingProgress)| == |pendingProgress|;
      assert Pairwise(pendingProgress, IdBefore) ==> Pairwise(r, UpdatedBefore) by {
        if Pairwise(pendingProgress, IdBefore) {
          SnapshotSorted(pendingProgress);
        }
      }
      r
    }

    /** `saveDocumentForOffline`: one transaction puts both rows with the same `savedAt`. */
    method SaveDocumentForOffline(document: DocumentInfo, pdfData: Bytes, now: int)
      requires Valid()
      modifies this`documents, this`pdfs
      ensures Valid()
      ensures documents == PutDoc(old(documents), OfflineDocument(document, now))
      ensures pdfs == old(pdfs)[document.id := OfflinePdf(document.id, pdfData, now)]
      ensures GetOfflineDocument(document.id) == Some(CachedCopy(OfflineDocument(document, now), pdfData))
      ensures forall k :: k != document.id ==> GetOfflineDocument(k) == old(GetOfflineDocument(k))
    {
      var saved := OfflineDocument(document, now);
      var docs0, pdfs0 := documents, pdfs;
      PutDocOrdered(docs0, saved);
      PutPaired(docs0, pdfs0, saved, pdfData);
      LookupAfterPut(docs0, pdfs0, saved, pdfData);
      documents := PutDoc(docs0, saved);
      pdfs := pdfs0[document.id := OfflinePdf(document.id, pdfData, now)];
      forall k | k != document.id ensures GetOfflineDocument(k) == Lookup(docs0, pdfs0, k) {
      }
    }

    /** `removeOfflineDocument`: one transaction deletes both rows; an absent id is a no-op. */
    method RemoveOfflineDocument(documentId: string)
      requires Valid()
      modifies this`documents, this`pdfs
      ensures Valid()
      ensures documents == DeleteDoc(old(documents), documentId)
      ensures pdfs == old(pdfs) - {documentId}
      ensures GetOfflineDocument(documentId) == None
      ensures forall k :: k != documentId ==> GetOfflineDocument(k) == old(GetOfflineDocument(k))
      ensures old(documentId !in CachedIds(documents)) ==> documents == old(documents) && pdfs == old(pdfs)
    {
      var docs0, pdfs0 := documents, pdfs;
      DeleteDocOrdered(docs0, documentId);
      DeletePaired(docs0, pdfs0, documentId);
      LookupAfterDelete(docs0, pdfs0, documentId);
      if documentId !in CachedIds(docs0) {
        DeleteAbsent(docs0, documentId);
        assert pdfs0 - {documentId} == pdfs0;
      }
      documents := DeleteDoc(docs0, documentId);
      pdfs := pdfs0 - {documentId};
      assert forall k :: GetOfflineDocument(k) == Lookup(documents, pdfs, k);
    }

    /** `queueProgressUpdate`: one transaction deletes the document's queued entries and
        adds one entry with a fresh key and `updatedAt = now`. */
    method QueueProgressUpdate(documentId: string, currentPage: int, totalPages: int, now: int)
      requires Valid()
      modifies this`pendingProgress, this`nextId
      ensures Valid()
      ensures pendingProgress == Enqueue(old(pendingProgress), old(nextId), documentId, currentPage, totalPages, now)
      ensures nextId == old(nextId) + 1
      ensures forall e :: e in pendingProgress && e.documentId == documentId ==>
                e == PendingProgressSync(old(nextId), documentId, currentPage, totalPages, now)
      ensures PendingProgressSync(old(nextId), documentId, currentPage, totalPages, now) in pendingProgress
      ensures forall e :: e in old(pendingProgress) ==> e.id < old(nextId)
      ensures forall e: PendingProgressSync :: e.documentId != documentId ==> (e in pendingProgress <==> e in old(pendingProgress))
    {
      EnqueueCoalesces(pendingProgress, nextId, documentId, currentPage, totalPages, now);
      pendingProgress := Enqueue(pendingProgress, nextId, documentId, currentPage, totalPages, now);
      nextId := nextId + 1;
    }

    /** `clearPendingProgress`: removes exactly the entries whose key is listed. */
    method ClearPendingProgress(ids: seq<nat>)
      requires Valid()
      modifies this`pendingProgress
      ensures Valid()
      ensures pendingProgress == WithoutIds(old(pendingProgress), set i | i in ids)
      ensures forall e :: e in pendingProgress <==> e in old(pendingProgress) && e.id !in ids
    {
      WithoutIdsValid(pendingProgress, nextId, set i | i in ids);
      pendingProgress := WithoutIds(pendingProgress, set i | i in ids);
    }
  }
}
