/** The reconciliation pass of frontend/src/lib/offlineSync.ts: one snapshot of the
    progress queue is replayed to the server entry by entry, and afterwards exactly the
    entries the server accepted are removed from the queue. */
module OfflineSync {
  import opened Wrappers
  import opened Ordering
  import opened OfflineDb

  /** How one `progressApi.save` call settles: resolved, or rejected with the message of an
      `Error` (None when the rejection value is not an `Error`). */
  datatype Reply = Saved | Rejected(message: Option<string>)

  /** The server, as seen by the pass: the answer to the attempt with the given index
      (0 for the first call of the pass) for a document, page and page count. */
  type Remote = (nat, string, int, int) -> Reply

  /** One element of the pass's `results` array. */
  datatype PushResult = Pushed(item: PendingProgressSync) | NotPushed(item: PendingProgressSync, error: string)

  datatype SyncResult = SyncResult(synced: nat, failed: nat, errors: seq<string>)

  /** The message recorded for a rejected save. */
  function ErrorMessage(reply: Reply): string
    requires reply.Rejected?
  {
    match reply.message
    case Some(m) => m
    case None => "Unknown error"
  }

  /** The result recorded for `item` when its save settles with `reply`. */
  function Outcome(item: PendingProgressSync, reply: Reply): (r: PushResult)
    ensures r.item == item
    ensures r.Pushed? <==> reply.Saved?
    ensures r.NotPushed? ==> r.error == ErrorMessage(reply)
  {
    if reply.Saved? then Pushed(item) else NotPushed(item, ErrorMessage(reply))
  }

  /** The answer to the `j`-th attempt of a pass over `pending`. */
  function AnswerTo(remote: Remote, pending: seq<PendingProgressSync>, j: nat): Reply
    requires j < |pending|
  {
    remote(j, pending[j].documentId, pending[j].currentPage, pending[j].totalPages)
  }

  /** What a pass over `pending` records: the outcome of each entry's attempt, in order. */
  function Attempts(pending: seq<PendingProgressSync>, remote: Remote): (results: seq<PushResult>)
    ensures |results| == |pending|
    ensures forall j :: 0 <= j < |pending| ==> results[j] == Outcome(pending[j], AnswerTo(remote, pending, j))
  {
    seq(|pending|, j requires 0 <= j < |pending| => Outcome(pending[j], AnswerTo(remote, pending, j)))
  }

  /** Number of results that succeeded. */
  function Synced(results: seq<PushResult>): (n: nat)
    ensures n <= |results|
  {
    if results == [] then 0 else (if results[0].Pushed? then 1 else 0) + Synced(results[1..])
  }

  /** Number of results that failed. */
  function Failed(results: seq<PushResult>): (n: nat)
    ensures n <= |results|
  {
    if results == [] then 0 else (if results[0].NotPushed? then 1 else 0) + Failed(results[1..])
  }

  /** The messages of the failed results, in result order. */
  function Errors(results: seq<PushResult>): (errors: seq<string>)
    ensures |errors| <= |results|
  {
    if results == [] then []
    else (if results[0].NotPushed? then [results[0].error] else []) + Errors(results[1..])
  }

  /** The keys of the succeeded entries. */
  function SyncedIds(results: seq<PushResult>): (ids: seq<nat>)
    ensures forall id :: id in ids <==> exists j :: 0 <= j < |results| && results[j].Pushed? && results[j].item.id == id
  {
    if results == [] then []
    else
      var rest := SyncedIds(results[1..]);
      assert forall id :: id in rest <==> exists j :: 1 <= j < |results| && results[j].Pushed? && results[j].item.id == id by {
        forall id | id in rest ensures exists j :: 1 <= j < |results| && results[j].Pushed? && results[j].item.id == id {
          var k :| 0 <= k < |results[1..]| && results[1..][k].Pushed? && results[1..][k].item.id == id;
          assert results[k + 1] == results[1..][k];
        }
        forall id | exists j :: 1 <= j < |results| && results[j].Pushed? && results[j].item.id == id ensures id in rest {
          var j :| 1 <= j < |results| && results[j].Pushed? && results[j].item.id == id;
          assert results[1..][j - 1] == results[j];
        }
      }
      (if results[0].Pushed? then [results[0].item.id] else []) + rest
  }

  lemma {:induction false} CountsAddUp(results: seq<PushResult>)
    ensures Synced(results) + Failed(results) == |results|
    ensures |Errors(results)| == Failed(results)
  {
    if results != [] {
      CountsAddUp(results[1..]);
    }
  }

  /** The returned summary: how many saves succeeded, how many failed, and why. */
  function Summarize(results: seq<PushResult>): (s: SyncResult)
    ensures s.synced + s.failed == |results|
    ensures |s.errors| == s.failed
  {
    CountsAddUp(results);
    SyncResult(Synced(results), Failed(results), Errors(results))
  }

  lemma {:induction false} SyncedAppend(results: seq<PushResult>, r: PushResult)
    ensures Synced(results + [r]) == Synced(results) + (if r.Pushed? then 1 else 0)
  {
    if results == [] {
      assert [r][1..] == [];
    } else {
      assert (results + [r])[1..] == results[1..] + [r];
      SyncedAppend(results[1..], r);
    }
  }

  lemma {:induction false} FailedAppend(results: seq<PushResult>, r: PushResult)
    ensures Failed(results + [r]) == Failed(results) + (if r.NotPushed? then 1 else 0)
  {
    if results == [] {
      assert [r][1..] == [];
    } else {
      assert (results + [r])[1..] == results[1..] + [r];
      FailedAppend(results[1..], r);
    }
  }

  lemma {:induction false} ErrorsAppend(results: seq<PushResult>, r: PushResult)
    ensures Errors(results + [r]) == Errors(results) + (if r.NotPushed? then [r.error] else [])
  {
    if results == [] {
      assert [r][1..] == [];
    } else {
      var all := results + [r];
      var head := if results[0].NotPushed? then [results[0].error] else [];
      assert all[0] == results[0] && all[1..] == results[1..] + [r];
      assert Errors(all) == head + Errors(results[1..] + [r]);
      ErrorsAppend(results[1..], r);
    }
  }

  /** Results accumulate in attempt order: a further result adds to exactly one count,
      and a failure's message goes at the end of `errors`. */
  lemma SummarizeAppend(results: seq<PushResult>, r: PushResult)
    ensures Summarize(results + [r]) ==
      SyncResult(Summarize(results).synced + (if r.Pushed? then 1 else 0),
                 Summarize(results).failed + (if r.NotPushed? then 1 else 0),
                 Summarize(results).errors + (if r.NotPushed? then [r.error] else []))
  {
    SyncedAppend(results, r);
    FailedAppend(results, r);
    ErrorsAppend(results, r);
  }

  /** The loop of the pass: one save attempt per entry, in order, whatever the earlier
      attempts returned. */
  method PushEach(pending: seq<PendingProgressSync>, remote: Remote) returns (results: seq<PushResult>)
    ensures |results| == |pending|
    ensures forall j :: 0 <= j < |pending| ==> results[j] == Outcome(pending[j], AnswerTo(remote, pending, j))
  {
    results := [];
    var i := 0;
    while i < |pending|
      invariant 0 <= i <= |pending|
      invariant |results| == i
      invariant forall j :: 0 <= j < i ==> results[j] == Outcome(pending[j], AnswerTo(remote, pending, j))
    {
      var item := pending[i];
      var reply := remote(i, item.documentId, item.currentPage, item.totalPages);
      if reply.Saved? {
        results := results + [Pushed(item)];
      } else {
        results := results + [NotPushed(item, ErrorMessage(reply))];
      }
      i := i + 1;
    }
  }

  /** In a snapshot with no repeated entry taken from a queue with unique keys, a failed
      entry's key is never among the succeeded keys; so deleting the succeeded keys removes
      exactly the succeeded entries. */
  lemma {:induction false} ExactlySucceededRemoved(q: seq<PendingProgressSync>, snapshot: seq<PendingProgressSync>,
                                                    results: seq<PushResult>)
    requires Pairwise(q, IdBefore)
    requires multiset(snapshot) == multiset(q)
    requires Pairwise(snapshot, UpdatedBefore)
    requires |results| == |snapshot|
    requires forall j :: 0 <= j < |results| ==> results[j].item == snapshot[j]
    ensures var rest := WithoutIds(q, set id | id in SyncedIds(results));
      && (forall r :: r in results && r.Pushed? ==> r.item !in rest)
      && (forall r :: r in results && r.NotPushed? ==> r.item in rest)
  {
    forall j, k | 0 <= j < |results| && 0 <= k < |results| && results[j].Pushed? && results[k].NotPushed?
      ensures results[j].item.id != results[k].item.id
    {
      assert snapshot[j] != snapshot[k] by {
        if j < k {
          assert UpdatedBefore(snapshot[j], snapshot[k]);
        } else {
          assert UpdatedBefore(snapshot[k], snapshot[j]);
        }
      }
      assert snapshot[j] in multiset(q) && snapshot[k] in multiset(q);
      DistinctEntriesDistinctKeys(q, snapshot[j], snapshot[k]);
    }
    forall r | r in results ensures r.item in q {
      var j :| 0 <= j < |results| && results[j] == r;
      assert snapshot[j] in multiset(q);
    }
  }

  /** Only keys from the snapshot are deleted, so an entry whose key is at or above every
      snapshot key (one queued after the snapshot was taken) survives the deletion. */
  lemma LaterEntriesSurvive(snapshot: seq<PendingProgressSync>, results: seq<PushResult>,
                            q: seq<PendingProgressSync>, n: nat)
    requires forall e :: e in snapshot ==> e.id < n
    requires |results| == |snapshot|
    requires forall j :: 0 <= j < |results| ==> results[j].item == snapshot[j]
    ensures forall e :: e in q && e.id >= n ==> e in WithoutIds(q, set id | id in SyncedIds(results))
  {
    forall id | id in SyncedIds(results) ensures id < n {
      var j :| 0 <= j < |results| && results[j].Pushed? && results[j].item.id == id;
      assert snapshot[j] in snapshot;
    }
  }

  /** `syncPendingProgress`: replays the snapshot and deletes the entries that were saved.
      `results` is the pass's internal array, exposed to state what was attempted. */
  method SyncPendingProgress(store: OfflineStore, remote: Remote) returns (result: SyncResult, ghost results: seq<PushResult>)
    requires store.Valid()
    modifies store`pendingProgress
    ensures store.Valid()
    ensures var snapshot := old(store.GetPendingProgressUpdates());
      && |results| == |snapshot|
      && forall j :: 0 <= j < |snapshot| ==> results[j] == Outcome(snapshot[j], AnswerTo(remote, snapshot, j))
    ensures result == Summarize(results)
    ensures old(store.pendingProgress) == [] ==> results == [] && result == SyncResult(0, 0, [])
    ensures store.pendingProgress == WithoutIds(old(store.pendingProgress), set id | id in SyncedIds(results))
    ensures forall r :: r in results && r.Pushed? ==> r.item !in store.pendingProgress
    ensures forall r :: r in results && r.NotPushed? ==> r.item in store.pendingProgress
    ensures forall e :: e in store.pendingProgress ==> e in old(store.pendingProgress)
  {
    var pending := store.GetPendingProgressUpdates();
    if |pending| == 0 {
      results := [];
      WithoutAbsentIds(store.pendingProgress, set id | id in SyncedIds(results));
      return SyncResult(0, 0, []), results;
    }
    var pushed := PushEach(pending, remote);
    results := pushed;
    var syncedIds := SyncedIds(pushed);
    ExactlySucceededRemoved(store.pendingProgress, pending, pushed);
    if |syncedIds| > 0 {
      store.ClearPendingProgress(syncedIds);
    } else {
      WithoutAbsentIds(store.pendingProgress, set id | id in syncedIds);
    }
    result := Summarize(pushed);
  }

  /** `getPendingSyncCount`: the length of the queue. */
  function GetPendingSyncCount(store: OfflineStore): (n: nat)
    reads store`pendingProgress
    ensures n == |store.pendingProgress|
  {
    |store.GetPendingProgressUpdates()|
  }

  /** `hasPendingSync`: whether anything is queued. */
  function HasPendingSync(store: OfflineStore): (b: bool)
    reads store`pendingProgress
    ensures b <==> store.pendingProgress != []
    ensures b <==> GetPendingSyncCount(store) > 0
  {
    |store.GetPendingProgressUpdates()| > 0
  }
}
