/** The reading page (frontend/src/pages/ReaderPage.tsx), without its rendering: where a
    document is loaded from, which page it opens on, how the page moves, and where a
    progress update goes. The hook it reads through its context is `OfflineCoordinator`. */
module ReaderPage {
  import opened Wrappers
  import opened OfflineDb
  import opened UseOffline

  // ---------------------------------------------------------------------------
  // Page arithmetic.

  /** Previous page: `Math.max(1, p - 1)`. */
  function PreviousPage(p: int): (r: int)
    ensures r >= 1
    ensures p > 1 ==> r == p - 1
    ensures p <= 1 ==> r == 1
  {
    if p - 1 > 1 then p - 1 else 1
  }

  /** Next page: `Math.min(numPages, p + 1)`. */
  function NextPage(p: int, numPages: int): (r: int)
    ensures r <= numPages
    ensures p < numPages ==> r == p + 1
    ensures p >= numPages ==> r == numPages
  {
    if p + 1 < numPages then p + 1 else numPages
  }

  /** Both moves keep a page that lies in [1, numPages] inside it. */
  lemma NavigationStaysInRange(p: int, numPages: int)
    requires 1 <= p <= numPages
    ensures 1 <= PreviousPage(p) <= numPages
    ensures 1 <= NextPage(p, numPages) <= numPages
  {
  }

  /** Forward then back returns to the page, except from the last page; back then forward
      returns to the page, except from the first. */
  lemma NavigationInverse(p: int, numPages: int)
    requires 1 <= p <= numPages
    ensures p < numPages ==> PreviousPage(NextPage(p, numPages)) == p
    ensures p > 1 ==> NextPage(PreviousPage(p), numPages) == p
    ensures NextPage(numPages, numPages) == numPages && PreviousPage(1) == 1
  {
  }

  /** The keyboard handler's effect on the page; other keys leave it alone. */
  function KeyPage(key: string, p: int, numPages: int): (r: int)
    ensures 1 <= p <= numPages ==> 1 <= r <= numPages
    ensures key !in {"ArrowLeft", "ArrowUp", "ArrowRight", "ArrowDown"} ==> r == p
    ensures key in {"ArrowLeft", "ArrowUp"} && p > 1 ==> r == p - 1
    ensures key in {"ArrowRight", "ArrowDown"} && p < numPages ==> r == p + 1
  {
    if key == "ArrowLeft" || key == "ArrowUp" then PreviousPage(p)
    else if key == "ArrowRight" || key == "ArrowDown" then NextPage(p, numPages)
    else p
  }

  // ---------------------------------------------------------------------------
  // Swipes.

  datatype Turn = Back | Forward

  function Abs(x: real): real {
    if x < 0.0 then -x else x
  }

  /** The turn a touch gesture asks for: a horizontal move of more than 60 pixels that is
      more than one and a half times the vertical move; leftwards (negative `dx`) is forward. */
  function SwipeTurn(dx: real, dy: real): (t: Option<Turn>)
    ensures t.Some? <==> Abs(dx) > 60.0 && Abs(dx) > Abs(dy) * 1.5
    ensures t == Some(Forward) ==> dx < -60.0
    ensures t == Some(Back) ==> dx > 60.0
  {
    if Abs(dx) > 60.0 && Abs(dx) > Abs(dy) * 1.5 then
      if dx < 0.0 then Some(Forward) else Some(Back)
    else None
  }

  /** Mirroring a swipe horizontally turns the other way; a mostly vertical or short move
      never turns. */
  lemma SwipeMirror(dx: real, dy: real)
    ensures SwipeTurn(-dx, dy).Some? <==> SwipeTurn(dx, dy).Some?
    ensures SwipeTurn(dx, dy) == Some(Forward) <==> SwipeTurn(-dx, dy) == Some(Back)
    ensures Abs(dy) >= Abs(dx) || Abs(dx) <= 60.0 ==> SwipeTurn(dx, dy) == None
  {
  }

  function TurnPage(t: Option<Turn>, p: int, numPages: int): int {
    match t
    case None => p
    case Some(Forward) => NextPage(p, numPages)
    case Some(Back) => PreviousPage(p)
  }

  // ---------------------------------------------------------------------------
  // Typed page numbers.

  /** The page input's change handler: `v` is `parseInt` of the field (None for NaN);
      a value is taken only if it is a page of the document. */
  function TypedPage(v: Option<int>, p: int, numPages: int): (r: int)
    ensures v.Some? && 1 <= v.value <= numPages ==> r == v.value
    ensures !(v.Some? && 1 <= v.value <= numPages) ==> r == p
    ensures 1 <= p <= numPages ==> 1 <= r <= numPages
  {
    match v
    case Some(n) => if n >= 1 && n <= numPages then n else p
    case None => p
  }

  // ---------------------------------------------------------------------------
  // Loading.

  datatype Source = FromServer | FromCache | Unavailable

  /** Where the load effect takes the document from: `isOnline` is the hook's flag,
      `browserOnline` is `navigator.onLine`, `cached` is `isDocumentOffline(docId)`. */
  function ChooseSource(isOnline: bool, browserOnline: bool, cached: bool): (s: Source)
    ensures s == Unavailable <==> !isOnline && !cached
    ensures s == FromCache ==> cached
    ensures s == FromServer ==> isOnline && (browserOnline || !cached)
    ensures isOnline && browserOnline ==> s == FromServer
    ensures !isOnline ==> s != FromServer
  {
    if !isOnline && !cached then Unavailable
    else if !isOnline || (!browserOnline && cached) then FromCache
    else FromServer
  }

  /** The page a freshly loaded document opens on: the stored page (clamped to the document)
      when the hook is online and the server has a positive one, else page 1. */
  function StartPage(isOnline: bool, stored: Option<int>, numPages: nat): (p: int)
    ensures numPages >= 1 ==> 1 <= p <= numPages
    ensures isOnline && stored.Some? && 1 <= stored.value <= numPages ==> p == stored.value
    ensures isOnline && stored.Some? && stored.value > numPages ==> p == numPages
    ensures !isOnline || stored.None? || stored.value <= 0 ==> p == 1
  {
    if isOnline && stored.Some? && stored.value > 0 then
      if stored.value < numPages then stored.value else numPages
    else 1
  }

  /** The message shown for a failure: an `Error`'s message, or the generic one. */
  function FailureMessage(message: Option<string>): string {
    message.GetOr("Failed to load PDF")
  }

  /** The first part of the load effect: the document and its PDF bytes from the chosen
      source, or the message of the error thrown. `cachedPdf` is `getOfflinePdf(docId)` and
      `cachedDoc` is `documents.get(docId)`; `fetched` answers the two server requests. */
  function Acquire(source: Source, cachedPdf: Option<Bytes>, cachedDoc: Option<OfflineDocument>,
                   fetched: Result<(DocumentInfo, Bytes), Option<string>>): (r: Result<(DocumentInfo, Bytes), string>)
    ensures source == Unavailable ==> r == Failure("Document not available offline")
    ensures source == FromCache ==>
      && (cachedPdf.None? ==> r == Failure("Offline document not found"))
      && (cachedPdf.Some? && cachedDoc.None? ==> r == Failure("Offline document metadata not found"))
      && (cachedPdf.Some? && cachedDoc.Some? ==> r == Success((cachedDoc.value.info, cachedPdf.value)))
    ensures source == FromServer ==>
      && (fetched.Success? ==> r == Success(fetched.value))
      && (fetched.Failure? ==> r == Failure(FailureMessage(fetched.error)))
  {
    match source
    case Unavailable => Failure("Document not available offline")
    case FromCache =>
      if cachedPdf.None? then Failure("Offline document not found")
      else if cachedDoc.None? then Failure("Offline document metadata not found")
      else Success((cachedDoc.value.info, cachedPdf.value))
    case FromServer =>
      match fetched
      case Success(v) => Success(v)
      case Failure(m) => Failure(FailureMessage(m))
  }

  /** With the store's pairing invariant, a document the hook lists as offline always has
      both records, so a load from the cache fails only if pdf.js rejects the bytes. */
  lemma CachedLoadSucceeds(hook: OfflineCoordinator, browserOnline: bool, docId: string,
                           fetched: Result<(DocumentInfo, Bytes), Option<string>>)
    requires hook.Valid()
    requires ChooseSource(hook.isOnline, browserOnline, hook.IsDocumentOffline(docId)) == FromCache
    ensures var got := Acquire(FromCache, hook.GetOfflinePdf(docId), FindDoc(hook.store.documents, docId), fetched);
      && got.Success?
      && got.value == (FindDoc(hook.store.documents, docId).value.info, hook.store.pdfs[docId].pdfData)
  {
  }

  /** The progress write the page may send directly to the server. */
  datatype ProgressWrite = ProgressWrite(documentId: string, currentPage: int, totalPages: int)

  // ---------------------------------------------------------------------------
  // Progress writes.

  datatype Route = Skip | Direct | DirectThenQueue | QueueOnly

  /** Where one call of `saveProgress` sends the page: nowhere without a document id or
      before the page count is known; else to the server when online, with the queue as
      fallback when that write is rejected; else to the queue. */
  function ProgressRoute(hasDocId: bool, numPages: nat, isOnline: bool, directSaveOk: bool): (r: Route)
    ensures r == Skip <==> !hasDocId || numPages == 0
    ensures r in {Direct, DirectThenQueue} <==> r != Skip && isOnline
    ensures r in {DirectThenQueue, QueueOnly} <==> r != Skip && (!isOnline || !directSaveOk)
  {
    if !hasDocId || numPages == 0 then Skip
    else if isOnline then (if directSaveOk then Direct else DirectThenQueue)
    else QueueOnly
  }

  // ---------------------------------------------------------------------------

  /** The page's state (rendering state left out). */
  class ReaderView {
    const docId: Option<string>
    var doc: Option<DocumentInfo>
    var numPages: nat
    var page: int
    var loading: bool
    var error: Option<string>
    var isLoadedOffline: bool
    var touchStart: Option<(real, real)>

    /** Once the page count is known, the page is one of the document's pages. */
    ghost predicate Valid()
      reads this
    {
      numPages > 0 ==> 1 <= page <= numPages
    }

    constructor (docId: Option<string>)
      ensures Valid()
      ensures this.docId == docId && doc == None && numPages == 0 && page == 1
      ensures loading && error == None && !isLoadedOffline && touchStart == None
    {
      this.docId := docId;
      doc := None;
      numPages := 0;
      page := 1;
      loading := true;
      error := None;
      isLoadedOffline := false;
      touchStart := None;
    }

    /** The load effect. `fetched` is the pair of server requests (document metadata and
        PDF bytes), `parsePdf` gives the page count pdf.js finds, and `stored` is the
        `current_page` of the server's progress record (None when absent or unreadable).
        Returns the progress write sent after an online load. */
    method Load(hook: OfflineCoordinator, browserOnline: bool,
                fetched: Result<(DocumentInfo, Bytes), Option<string>>,
                parsePdf: Bytes -> Result<nat, Option<string>>,
                stored: Option<int>)
      returns (sent: Option<ProgressWrite>)
      requires Valid() && hook.Valid()
      modifies this`doc, this`numPages, this`page, this`loading, this`error, this`isLoadedOffline
      ensures Valid()
      ensures docId.None? ==> unchanged(this) && sent == None
      ensures docId.Some? ==>
        var source := ChooseSource(hook.isOnline, browserOnline, hook.IsDocumentOffline(docId.value));
        var got := Acquire(source, hook.GetOfflinePdf(docId.value), FindDoc(hook.store.documents, docId.value), fetched);
        && !loading
        && (got.Failure? ==>
              && error == Some(got.error) && sent == None && isLoadedOffline == old(isLoadedOffline)
              && doc == old(doc) && numPages == old(numPages) && page == old(page))
        && (got.Success? ==>
              && doc == Some(got.value.0)
              && isLoadedOffline == (old(isLoadedOffline) || source == FromCache)
              && (parsePdf(got.value.1).Failure? ==>
                    && error == Some(FailureMessage(parsePdf(got.value.1).error)) && sent == None
                    && numPages == old(numPages) && page == old(page))
              && (parsePdf(got.value.1).Success? ==>
                    && error == old(error)
                    && numPages == parsePdf(got.value.1).value
                    && page == StartPage(hook.isOnline, stored, numPages)
                    && sent == if hook.isOnline then Some(ProgressWrite(docId.value, page, numPages)) else None))
    {
      if docId.None? {
        return None;
      }
      var id := docId.value;
      var source := ChooseSource(hook.isOnline, browserOnline, hook.IsDocumentOffline(id));
      var got := Acquire(source, hook.GetOfflinePdf(id), FindDoc(hook.store.documents, id), fetched);
      sent := Finish(id, got, source == FromCache, hook.isOnline, parsePdf, stored);
    }

    /** The rest of the load effect once the document and its bytes are known (or the
        error thrown while getting them). */
    method Finish(id: string, got: Result<(DocumentInfo, Bytes), string>, fromCache: bool, isOnline: bool,
                  parsePdf: Bytes -> Result<nat, Option<string>>, stored: Option<int>)
      returns (sent: Option<ProgressWrite>)
      requires Valid()
      modifies this`doc, this`numPages, this`page, this`loading, this`error, this`isLoadedOffline
      ensures Valid()
      ensures !loading
      ensures got.Failure? ==>
        && error == Some(got.error) && sent == None && isLoadedOffline == old(isLoadedOffline)
        && doc == old(doc) && numPages == old(numPages) && page == old(page)
      ensures got.Success? ==>
        && doc == Some(got.value.0)
        && isLoadedOffline == (old(isLoadedOffline) || fromCache)
        && (parsePdf(got.value.1).Failure? ==>
              && error == Some(FailureMessage(parsePdf(got.value.1).error)) && sent == None
              && numPages == old(numPages) && page == old(page))
        && (parsePdf(got.value.1).Success? ==>
              && error == old(error)
              && numPages == parsePdf(got.value.1).value
              && page == StartPage(isOnline, stored, numPages)
              && sent == if isOnline then Some(ProgressWrite(id, page, numPages)) else None)
    {
      if got.Failure? {
        error := Some(got.error);
        loading := false;
        return None;
      }
      if fromCache {
        isLoadedOffline := true;
      }
      var (docData, pdfData) := got.value;
      doc := Some(docData);
      var parsed := parsePdf(pdfData);
      if parsed.Failure? {
        error := Some(FailureMessage(parsed.error));
        loading := false;
        return None;
      }
      numPages := parsed.value;
      page := StartPage(isOnline, stored, numPages);
      sent := if isOnline then Some(ProgressWrite(id, page, numPages)) else None;
      loading := false;
    }

    /** Back (the ArrowLeft/ArrowUp keys and the previous-page button). */
    method GoPrevious()
      requires Valid()
      modifies this`page
      ensures Valid()
      ensures page == PreviousPage(old(page))
    {
      page := PreviousPage(page);
    }

    /** Forward (the ArrowRight/ArrowDown keys and the next-page button). */
    method GoNext()
      requires Valid()
      modifies this`page
      ensures Valid()
      ensures page == NextPage(old(page), numPages)
    {
      page := NextPage(page, numPages);
    }

    /** The keydown handler's page moves (the fullscreen keys are left out). */
    method HandleKey(key: string)
      requires Valid()
      modifies this`page
      ensures Valid()
      ensures page == KeyPage(key, old(page), numPages)
    {
      if key == "ArrowLeft" || key == "ArrowUp" {
        GoPrevious();
      } else if key == "ArrowRight" || key == "ArrowDown" {
        GoNext();
      }
    }

    method HandleTouchStart(x: real, y: real)
      modifies this`touchStart
      ensures touchStart == Some((x, y))
    {
      touchStart := Some((x, y));
    }

    /** The end of a touch: ignored without a recorded start; otherwise the start is
        forgotten and the page turns if the gesture was a swipe. */
    method HandleTouchEnd(x: real, y: real)
      requires Valid()
      modifies this`page, this`touchStart
      ensures Valid()
      ensures touchStart == None
      ensures old(touchStart).None? ==> page == old(page)
      ensures old(touchStart).Some? ==>
        page == TurnPage(SwipeTurn(x - old(touchStart).value.0, y - old(touchStart).value.1), old(page), numPages)
    {
      if touchStart.None? {
        return;
      }
      var dx := x - touchStart.value.0;
      var dy := y - touchStart.value.1;
      touchStart := None;
      var turn := SwipeTurn(dx, dy);
      if turn == Some(Forward) {
        GoNext();
      } else if turn == Some(Back) {
        GoPrevious();
      }
    }

    /** The page number field's change handler. */
    method HandlePageInput(v: Option<int>)
      requires Valid()
      modifies this`page
      ensures Valid()
      ensures page == TypedPage(v, old(page), numPages)
    {
      page := TypedPage(v, page, numPages);
    }

    /** `saveProgress`: `directSaveOk` says whether the direct server write resolves.
        Returns the write sent to the server, if any. */
    method SaveProgress(hook: OfflineCoordinator, directSaveOk: bool, now: int) returns (sent: Option<ProgressWrite>)
      requires hook.Valid()
      modifies hook.store`pendingProgress, hook.store`nextId, hook`pendingSyncCount
      ensures hook.Valid()
      ensures var route := ProgressRoute(docId.Some?, numPages, hook.isOnline, directSaveOk);
        && (route == Skip ==> sent == None)
        && (route in {Direct, DirectThenQueue} ==> sent == Some(ProgressWrite(docId.value, page, numPages)))
        && (route == QueueOnly ==> sent == None)
        && (route in {Skip, Direct} ==>
              && hook.store.pendingProgress == old(hook.store.pendingProgress)
              && hook.store.nextId == old(hook.store.nextId)
              && hook.pendingSyncCount == old(hook.pendingSyncCount))
        && (route in {DirectThenQueue, QueueOnly} ==>
              && hook.store.pendingProgress ==
                   Enqueue(old(hook.store.pendingProgress), old(hook.store.nextId), docId.value, page, numPages, now)
              && hook.store.nextId == old(hook.store.nextId) + 1
              && hook.pendingSyncCount == |hook.store.pendingProgress|)
      // No update is lost: with a document and pages, the page either reached the server
      // or is now the document's one queued entry.
      ensures docId.Some? && numPages > 0 ==>
        || (sent == Some(ProgressWrite(docId.value, page, numPages)) && directSaveOk)
        || (PendingProgressSync(old(hook.store.nextId), docId.value, page, numPages, now) in hook.store.pendingProgress
            && forall e :: e in hook.store.pendingProgress && e.documentId == docId.value ==>
                 e == PendingProgressSync(old(hook.store.nextId), docId.value, page, numPages, now))
    {
      var route := ProgressRoute(docId.Some?, numPages, hook.isOnline, directSaveOk);
      if route == Skip {
        return None;
      }
      if hook.isOnline {
        sent := Some(ProgressWrite(docId.value, page, numPages));
        if !directSaveOk {
          hook.SaveProgressOffline(docId.value, page, numPages, now);
        }
      } else {
        sent := None;
        hook.SaveProgressOffline(docId.value, page, numPages, now);
      }
    }
  }
}
