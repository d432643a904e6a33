/** The server's reading-progress endpoints (sheaf/routers/reading_progress.py) over the
    `reading_progress` table, which holds at most one row per (user, document)
    (sheaf/models/reading_progress.py). This is the service the offline queue replays into. */
module ReadingProgressStore {
  import opened Wrappers
  import opened Ordering

  /** A row; `lastReadAt` is the database clock at insertion or at the last UPDATE. */
  datatype ReadingProgress = ReadingProgress(
    userId: string,
    documentId: string,
    currentPage: int,
    totalPages: int,
    lastReadAt: int)

  predicate DifferentPair(a: ReadingProgress, b: ReadingProgress) {
    a.userId != b.userId || a.documentId != b.documentId
  }

  /** The unique constraint `uq_user_document`. */
  ghost predicate OnePerPair(rows: seq<ReadingProgress>) {
    Pairwise(rows, DifferentPair)
  }

  /** The position of the row for (userId, documentId), if there is one. */
  function FindRow(rows: seq<ReadingProgress>, userId: string, documentId: string): (i: Option<nat>)
    ensures i.Some? ==> i.value < |rows| && rows[i.value].userId == userId && rows[i.value].documentId == documentId
    ensures i.None? <==> forall r :: r in rows ==> r.userId != userId || r.documentId != documentId
  {
    if rows == [] then None
    else if rows[0].userId == userId && rows[0].documentId == documentId then Some(0)
    else
      match FindRow(rows[1..], userId, documentId)
      case Some(k) => Some(k + 1)
      case None =>
        assert rows == [rows[0]] + rows[1..];
        None
  }

  /** The `select ... where user_id, document_id` lookup. */
  function Lookup(rows: seq<ReadingProgress>, userId: string, documentId: string): (r: Option<ReadingProgress>)
    ensures r.Some? ==> r.value in rows && r.value.userId == userId && r.value.documentId == documentId
    ensures r.None? <==> forall x :: x in rows ==> x.userId != userId || x.documentId != documentId
  {
    match FindRow(rows, userId, documentId)
    case Some(i) => Some(rows[i])
    case None => None
  }

  /** Under the unique constraint a lookup finds the one row of the pair. */
  lemma LookupFindsRow(rows: seq<ReadingProgress>, r: ReadingProgress)
    requires OnePerPair(rows) && r in rows
    ensures Lookup(rows, r.userId, r.documentId) == Some(r)
  {
    var i :| 0 <= i < |rows| && rows[i] == r;
    var k := FindRow(rows, r.userId, r.documentId).value;
    assert k == i;
  }

  /** `save_progress`: a new row stamped `now` when the pair has none; otherwise the row's
      page fields are assigned, and the row is stamped `now` only when a value actually
      changed (assigning equal values emits no UPDATE, so `onupdate` does not fire). */
  function Upsert(rows: seq<ReadingProgress>, userId: string, documentId: string,
                  currentPage: int, totalPages: int, now: int): (r: seq<ReadingProgress>)
    ensures |r| == |rows| + (if Lookup(rows, userId, documentId).None? then 1 else 0)
    ensures forall x :: x in r ==> x in rows || (x.userId == userId && x.documentId == documentId)
  {
    match FindRow(rows, userId, documentId)
    case None => rows + [ReadingProgress(userId, documentId, currentPage, totalPages, now)]
    case Some(i) =>
      var prev := rows[i];
      if prev.currentPage == currentPage && prev.totalPages == totalPages then rows
      else rows[i := ReadingProgress(userId, documentId, currentPage, totalPages, now)]
  }

  /** The upsert keeps one row per pair. */
  lemma UpsertOnePerPair(rows: seq<ReadingProgress>, userId: string, documentId: string,
                         currentPage: int, totalPages: int, now: int)
    requires OnePerPair(rows)
    ensures OnePerPair(Upsert(rows, userId, documentId, currentPage, totalPages, now))
  {
    var r := Upsert(rows, userId, documentId, currentPage, totalPages, now);
    if FindRow(rows, userId, documentId).None? {
      forall i, j | 0 <= i < j < |r| ensures DifferentPair(r[i], r[j]) {
        if j == |rows| {
          assert rows[i] in rows;
        }
      }
    }
  }

  /** An insert leaves the lookup of every other pair as it was. */
  lemma InsertKeepsOthers(rows: seq<ReadingProgress>, userId: string, documentId: string,
                          currentPage: int, totalPages: int, now: int, u: string, d: string)
    requires OnePerPair(rows) && FindRow(rows, userId, documentId).None?
    requires u != userId || d != documentId
    ensures Lookup(Upsert(rows, userId, documentId, currentPage, totalPages, now), u, d) == Lookup(rows, u, d)
  {
    var added := ReadingProgress(userId, documentId, currentPage, totalPages, now);
    var r := rows + [added];
    assert r == Upsert(rows, userId, documentId, currentPage, totalPages, now);
    UpsertOnePerPair(rows, userId, documentId, currentPage, totalPages, now);
    match Lookup(rows, u, d)
    case Some(x) =>
      assert x in r;
      LookupFindsRow(r, x);
    case None =>
      forall x | x in r ensures x.userId != u || x.documentId != d {
        if x != added {
          assert x in rows;
        }
      }
  }

  /** An update in place leaves the lookup of every other pair as it was. */
  lemma UpdateKeepsOthers(rows: seq<ReadingProgress>, userId: string, documentId: string,
                          currentPage: int, totalPages: int, now: int, u: string, d: string)
    requires OnePerPair(rows) && FindRow(rows, userId, documentId).Some?
    requires u != userId || d != documentId
    ensures Lookup(Upsert(rows, userId, documentId, currentPage, totalPages, now), u, d) == Lookup(rows, u, d)
  {
    var i := FindRow(rows, userId, documentId).value;
    var changed := ReadingProgress(userId, documentId, currentPage, totalPages, now);
    var r := Upsert(rows, userId, documentId, currentPage, totalPages, now);
    assert |r| == |rows|;
    assert forall k :: 0 <= k < |r| && k != i ==> r[k] == rows[k];
    UpsertOnePerPair(rows, userId, documentId, currentPage, totalPages, now);
    match Lookup(rows, u, d)
    case Some(x) =>
      var k :| 0 <= k < |rows| && rows[k] == x;
      assert k != i;
      assert r[k] == x;
      LookupFindsRow(r, x);
    case None =>
      forall x | x in r ensures x.userId != u || x.documentId != d {
        var k :| 0 <= k < |r| && r[k] == x;
        if k != i {
          assert rows[k] in rows;
        }
      }
  }

  /** After an upsert the pair's row carries the written pages, stamped `now` unless
      nothing changed; every other pair reads as before. */
  lemma UpsertLookup(rows: seq<ReadingProgress>, userId: string, documentId: string,
                     currentPage: int, totalPages: int, now: int, u: string, d: string)
    requires OnePerPair(rows)
    ensures var after := Lookup(Upsert(rows, userId, documentId, currentPage, totalPages, now), u, d);
      && (u == userId && d == documentId ==>
            && after.Some?
            && after.value.currentPage == currentPage && after.value.totalPages == totalPages
            && after.value.userId == userId && after.value.documentId == documentId
            && after.value.lastReadAt ==
                 match Lookup(rows, userId, documentId)
                 case Some(prev) =>
                   if prev.currentPage == currentPage && prev.totalPages == totalPages then prev.lastReadAt else now
                 case None => now)
      && (u != userId || d != documentId ==> after == Lookup(rows, u, d))
  {
    var r := Upsert(rows, userId, documentId, currentPage, totalPages, now);
    UpsertOnePerPair(rows, userId, documentId, currentPage, totalPages, now);
    match FindRow(rows, userId, documentId)
    case None =>
      var added := ReadingProgress(userId, documentId, currentPage, totalPages, now);
      assert r[|rows|] == added;
      LookupFindsRow(r, added);
      if u != userId || d != documentId {
        InsertKeepsOthers(rows, userId, documentId, currentPage, totalPages, now, u, d);
      }
    case Some(i) =>
      LookupFindsRow(rows, rows[i]);
      if r != rows {
        var changed := ReadingProgress(userId, documentId, currentPage, totalPages, now);
        assert r[i] == changed;
        LookupFindsRow(r, changed);
      } else {
        LookupFindsRow(r, rows[i]);
      }
      if u != userId || d != documentId {
        UpdateKeepsOthers(rows, userId, documentId, currentPage, totalPages, now, u, d);
      }
  }

  /** Last write wins: of two saves for the same pair, the second one's pages are read back. */
  lemma LastWriteWins(rows: seq<ReadingProgress>, userId: string, documentId: string,
                      p1: int, t1: int, now1: int, p2: int, t2: int, now2: int)
    requires OnePerPair(rows)
    ensures var after := Upsert(Upsert(rows, userId, documentId, p1, t1, now1), userId, documentId, p2, t2, now2);
      && Lookup(after, userId, documentId).Some?
      && Lookup(after, userId, documentId).value.currentPage == p2
      && Lookup(after, userId, documentId).value.totalPages == t2
  {
    UpsertOnePerPair(rows, userId, documentId, p1, t1, now1);
    UpsertLookup(Upsert(rows, userId, documentId, p1, t1, now1), userId, documentId, p2, t2, now2, userId, documentId);
  }

  /** `order_by(last_read_at.desc())`; the database leaves the order of equal stamps open,
      and this model breaks such ties by document id. */
  predicate NewerFirst(a: ReadingProgress, b: ReadingProgress) {
    a.lastReadAt > b.lastReadAt || (a.lastReadAt == b.lastReadAt && Below(a.documentId, b.documentId))
  }

  lemma NewerFirstTransitive()
    ensures Transitive(NewerFirst)
  {
    forall a, b, c | NewerFirst(a, b) && NewerFirst(b, c) ensures NewerFirst(a, c) {
      if a.lastReadAt == b.lastReadAt == c.lastReadAt {
        BelowTransitive(a.documentId, b.documentId, c.documentId);
      }
    }
  }

  /** The rows of one user. */
  function RowsOf(rows: seq<ReadingProgress>, userId: string): (mine: seq<ReadingProgress>)
    ensures forall r :: r in mine <==> r in rows && r.userId == userId
  {
    Filter(rows, (r: ReadingProgress) => r.userId == userId)
  }

  const ListLimit := 5

  /** The user's rows newest first, as `list_progress` selects them before the limit. */
  function NewestFirst(rows: seq<ReadingProgress>, userId: string): (s: seq<ReadingProgress>)
    ensures multiset(s) == multiset(RowsOf(rows, userId))
    ensures OnePerPair(rows) ==> Pairwise(s, NewerFirst)
  {
    var mine := RowsOf(rows, userId);
    assert OnePerPair(rows) ==> Pairwise(SortBy(mine, NewerFirst), NewerFirst) by {
      if OnePerPair(rows) {
        FilterPairwise(rows, (r: ReadingProgress) => r.userId == userId, DifferentPair);
        forall i, j | 0 <= i < j < |mine| ensures NewerFirst(mine[i], mine[j]) || NewerFirst(mine[j], mine[i]) {
          assert DifferentPair(mine[i], mine[j]);
          assert mine[i] in mine && mine[j] in mine;
          if mine[i].lastReadAt == mine[j].lastReadAt {
            BelowTotal(mine[i].documentId, mine[j].documentId);
          }
        }
        NewerFirstTransitive();
        SortBySorted(mine, NewerFirst);
      }
    }
    SortBy(mine, NewerFirst)
  }

  /** A prefix of a sequence strictly ordered by `NewerFirst` and what it leaves out. */
  lemma PrefixIsNewest(s: seq<ReadingProgress>, n: nat)
    requires Pairwise(s, NewerFirst) && n <= |s|
    ensures forall x, y :: x in s[..n] && y in s && y !in s[..n] ==> x.lastReadAt >= y.lastReadAt
  {
    forall x, y | x in s[..n] && y in s && y !in s[..n] ensures x.lastReadAt >= y.lastReadAt {
      var i :| 0 <= i < n && s[..n][i] == x;
      assert s == s[..n] + s[n..];
      assert y in s[n..];
      var j :| 0 <= j < |s[n..]| && s[n..][j] == y;
      assert s[n + j] == y && s[i] == x;
      assert NewerFirst(s[i], s[n + j]);
    }
  }

  /** The first `ListLimit` of the user's rows, newest first. */
  function Recent(rows: seq<ReadingProgress>, userId: string): (r: seq<ReadingProgress>)
    ensures |r| <= ListLimit
  {
    var s := NewestFirst(rows, userId);
    if |s| < ListLimit then s else s[..ListLimit]
  }

  /** Two sequences with the same multiset have the same length and the same elements. */
  lemma SameElements(s: seq<ReadingProgress>, t: seq<ReadingProgress>)
    requires multiset(s) == multiset(t)
    ensures |s| == |t|
    ensures forall x :: x in s <==> x in t
  {
    assert |s| == |multiset(s)| == |multiset(t)| == |t|;
    forall x ensures x in s <==> x in t {
      assert x in s <==> x in multiset(s);
      assert x in t <==> x in multiset(t);
    }
  }

  /** A prefix of a `NewerFirst`-ordered sequence has non-increasing stamps. */
  lemma PrefixSorted(s: seq<ReadingProgress>, n: nat)
    requires Pairwise(s, NewerFirst) && n <= |s|
    ensures forall i, j :: 0 <= i < j < |s[..n]| ==> s[..n][i].lastReadAt >= s[..n][j].lastReadAt
  {
    forall i, j | 0 <= i < j < |s[..n]| ensures s[..n][i].lastReadAt >= s[..n][j].lastReadAt {
      assert NewerFirst(s[i], s[j]);
    }
  }

  /** A prefix takes nothing the whole sequence lacks, and no element more often. */
  lemma PrefixIncluded(s: seq<ReadingProgress>, n: nat)
    requires n <= |s|
    ensures multiset(s[..n]) <= multiset(s)
  {
    assert s == s[..n] + s[n..];
  }

  lemma RecentIsNewest(rows: seq<ReadingProgress>, userId: string)
    ensures var r := Recent(rows, userId);
      && (forall x :: x in r ==> x in rows && x.userId == userId)
      && multiset(r) <= multiset(RowsOf(rows, userId))
      && |r| == (if |RowsOf(rows, userId)| < ListLimit then |RowsOf(rows, userId)| else ListLimit)
      && (OnePerPair(rows) ==> forall i, j :: 0 <= i < j < |r| ==> r[i].lastReadAt >= r[j].lastReadAt)
      && (OnePerPair(rows) ==> forall x, y :: x in r && y in rows && y.userId == userId && y !in r ==>
            x.lastReadAt >= y.lastReadAt)
  {
    var s := NewestFirst(rows, userId);
    var mine := RowsOf(rows, userId);
    SameElements(s, mine);
    var n := if |s| < ListLimit then |s| else ListLimit;
    var r := s[..n];
    assert r == Recent(rows, userId);
    assert forall x :: x in r ==> x in s;
    PrefixIncluded(s, n);
    if OnePerPair(rows) {
      PrefixSorted(s, n);
      PrefixIsNewest(s, n);
    }
  }

  /** The `reading_progress` table. */
  class ProgressTable {
    var rows: seq<ReadingProgress>

    ghost predicate Valid()
      reads this
    {
      OnePerPair(rows)
    }

    constructor ()
      ensures Valid() && rows == []
    {
      rows := [];
    }

    /** `get_progress`: the caller's row for the document, or None. */
    function GetProgress(userId: string, documentId: string): (r: Option<ReadingProgress>)
      reads this
      ensures r.Some? ==> r.value in rows && r.value.userId == userId && r.value.documentId == documentId
      ensures r.None? <==> forall x :: x in rows ==> x.userId != userId || x.documentId != documentId
    {
      Lookup(rows, userId, documentId)
    }

    /** `list_progress`: at most five of the caller's rows, newest first, and none of the
        rows left out is newer than a row returned. */
    function ListProgress(userId: string): (r: seq<ReadingProgress>)
      reads this
      ensures forall x :: x in r ==> x in rows && x.userId == userId
      ensures multiset(r) <= multiset(RowsOf(rows, userId))
      ensures |r| == if |RowsOf(rows, userId)| < ListLimit then |RowsOf(rows, userId)| else ListLimit
      ensures Valid() ==> forall i, j :: 0 <= i < j < |r| ==> r[i].lastReadAt >= r[j].lastReadAt
      ensures Valid() ==> forall x, y :: x in r && y in rows && y.userId == userId && y !in r ==>
                x.lastReadAt >= y.lastReadAt
    {
      RecentIsNewest(rows, userId);
      Recent(rows, userId)
    }

    /** `save_progress` for the caller and the document: insert or update, then return the row. */
    method SaveProgress(userId: string, documentId: string, currentPage: int, totalPages: int, now: int)
      returns (saved: ReadingProgress)
      requires Valid()
      modifies this
      ensures Valid()
      ensures rows == Upsert(old(rows), userId, documentId, currentPage, totalPages, now)
      ensures GetProgress(userId, documentId) == Some(saved)
      ensures saved.currentPage == currentPage && saved.totalPages == totalPages
      ensures old(GetProgress(userId, documentId)).None? ==> saved.lastReadAt == now && |rows| == |old(rows)| + 1
      ensures old(GetProgress(userId, documentId)).Some? ==> |rows| == |old(rows)|
      ensures forall u, d :: u != userId || d != documentId ==> GetProgress(u, d) == old(GetProgress(u, d))
    {
      ghost var before := rows;
      UpsertOnePerPair(rows, userId, documentId, currentPage, totalPages, now);
      forall u, d ensures u != userId || d != documentId ==>
          Lookup(Upsert(before, userId, documentId, currentPage, totalPages, now), u, d) == Lookup(before, u, d)
      {
        UpsertLookup(before, userId, documentId, currentPage, totalPages, now, u, d);
      }
      UpsertLookup(before, userId, documentId, currentPage, totalPages, now, userId, documentId);
      var found := FindRow(rows, userId, documentId);
      match found {
        case None =>
          saved := ReadingProgress(userId, documentId, currentPage, totalPages, now);
          rows := rows + [saved];
        case Some(i) =>
          if rows[i].currentPage == currentPage && rows[i].totalPages == totalPages {
            saved := rows[i];
          } else {
            saved := ReadingProgress(userId, documentId, currentPage, totalPages, now);
            rows := rows[i := saved];
          }
      }
    }
  }
}
