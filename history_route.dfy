/**
 * The history endpoint (GET in app/api/workflow/history/route.ts): all
 * stored runs, newest first by `createdAt`, at most 20 of them. The query
 * has no filter, so a session id sent by the client makes no difference.
 */
module HistoryRoute {

  import opened Wrappers
  import opened HistoryStore
  import opened RunRoute

  /** The most records one history request returns. */
  const HistoryLimit: nat := 20

  /** Non-increasing `createdAt`: newest first. */
  ghost predicate NewestFirst(rs: seq<Run>)
  {
    forall i, j :: 0 <= i < j < |rs| ==> rs[i].createdAt >= rs[j].createdAt
  }

  /**
   * What a "sort by createdAt descending, limit n" query may return from
   * `records`: min(n, |records|) of the stored records, newest first, and
   * none left out is newer than one returned. The order among records with
   * equal timestamps is not fixed.
   */
  ghost predicate IsNewestFirst(records: seq<Run>, r: seq<Run>, limit: nat)
  {
    && |r| == (if |records| < limit then |records| else limit)
    && NewestFirst(r)
    && multiset(r) <= multiset(records)
    && (|records| <= limit ==> multiset(r) == multiset(records))
    && (forall x, y :: x in multiset(records) - multiset(r) && y in r ==> x.createdAt <= y.createdAt)
  }

  /** A run no older than the head of a newest-first list can go in front of it. */
  lemma ConsNewestFirst(a: Run, s: seq<Run>)
    requires NewestFirst(s) && (s == [] || a.createdAt >= s[0].createdAt)
    ensures NewestFirst([a] + s)
  {
    var r := [a] + s;
    forall i, j | 0 <= i < j < |r| ensures r[i].createdAt >= r[j].createdAt {
      if i == 0 && j > 1 {
        assert r[j] == s[j - 1] && s[0].createdAt >= s[j - 1].createdAt;
      }
    }
  }

  /** Dropping the newest run of a newest-first list leaves a newest-first list. */
  lemma TailOfNewestFirst(s: seq<Run>)
    requires NewestFirst(s) && s != []
    ensures NewestFirst(s[1..])
  {
    forall i, j | 0 <= i < j < |s| - 1 ensures s[1..][i].createdAt >= s[1..][j].createdAt {
      assert s[1..][i] == s[i + 1] && s[1..][j] == s[j + 1];
    }
  }

  /** Places a run into a newest-first list. */
  function InsertByDate(x: Run, s: seq<Run>): (r: seq<Run>)
    requires NewestFirst(s)
    ensures NewestFirst(r) && multiset(r) == multiset(s) + multiset{x}
    ensures |r| == |s| + 1 && (r[0] == x || (s != [] && r[0] == s[0]))
  {
    if s == [] || x.createdAt >= s[0].createdAt then
      ConsNewestFirst(x, s);
      [x] + s
    else
      TailOfNewestFirst(s);
      var rest := InsertByDate(x, s[1..]);
      assert s[0].createdAt >= rest[0].createdAt by {
        if rest[0] != x { assert rest[0] == s[1]; }
      }
      ConsNewestFirst(s[0], rest);
      assert s == [s[0]] + s[1..];
      assert multiset([s[0]] + rest) == multiset{s[0]} + multiset(rest);
      assert multiset(s) == multiset{s[0]} + multiset(s[1..]);
      [s[0]] + rest
  }

  /** All runs, newest first. */
  function SortByDate(records: seq<Run>): (s: seq<Run>)
    ensures NewestFirst(s) && multiset(s) == multiset(records)
  {
    if records == [] then []
    else
      assert records == [records[0]] + records[1..];
      InsertByDate(records[0], SortByDate(records[1..]))
  }

  /** The query of the history endpoint: sort by `createdAt` descending, keep the first `limit`. */
  function Recent(records: seq<Run>, limit: nat): (r: seq<Run>)
    ensures IsNewestFirst(records, r, limit)
  {
    var s := SortByDate(records);
    var k := if |s| < limit then |s| else limit;
    RecentIsTopOfSort(records, s, k);
    s[..k]
  }

  /** A prefix of a newest-first permutation of the records is a valid answer. */
  lemma RecentIsTopOfSort(records: seq<Run>, s: seq<Run>, k: nat)
    requires NewestFirst(s) && multiset(s) == multiset(records) && k <= |s|
    ensures |s| == |records|
    ensures NewestFirst(s[..k]) && multiset(s[..k]) <= multiset(records)
    ensures k == |s| ==> multiset(s[..k]) == multiset(records)
    ensures forall x, y :: x in multiset(records) - multiset(s[..k]) && y in s[..k] ==> x.createdAt <= y.createdAt
  {
    assert |s| == |multiset(s)| == |multiset(records)| == |records|;
    PrefixOfNewestFirst(s, k);
    assert s == s[..k] + s[k..];
    assert multiset(s) == multiset(s[..k]) + multiset(s[k..]);
    assert k == |s| ==> s[..k] == s;
    forall x, y | x in multiset(records) - multiset(s[..k]) && y in s[..k] ensures x.createdAt <= y.createdAt {
      assert x in multiset(s[k..]);
      LeftOutIsOlder(s, k, x, y);
    }
  }

  /** A prefix of a newest-first list is newest-first. */
  lemma PrefixOfNewestFirst(s: seq<Run>, k: nat)
    requires NewestFirst(s) && k <= |s|
    ensures NewestFirst(s[..k])
  {
    forall i, j | 0 <= i < j < k ensures s[..k][i].createdAt >= s[..k][j].createdAt {
      assert s[..k][i] == s[i] && s[..k][j] == s[j];
    }
  }

  /** In a newest-first list, an element after the first k is no newer than one among them. */
  lemma LeftOutIsOlder(s: seq<Run>, k: nat, x: Run, y: Run)
    requires NewestFirst(s) && k <= |s|
    requires x in s[k..] && y in s[..k]
    ensures x.createdAt <= y.createdAt
  {
    var m :| 0 <= m < |s| - k && s[k..][m] == x;
    var n :| 0 <= n < k && s[..k][n] == y;
    assert s[k + m] == x && s[n] == y;
  }

  /**
   * Handles one history request. `sessionQuery` is the session id the client
   * puts in the query string; the handler never reads it. `storeUp` says
   * whether the connection and the query succeed.
   */
  function Get(history: HistoryCollection, sessionQuery: Option<string>, storeUp: bool): (resp: Response<seq<Run>>)
    reads history
    ensures storeUp ==> resp.Success? && IsNewestFirst(history.records, resp.body, HistoryLimit)
    ensures !storeUp ==> resp == Error(StatusServerError, InternalError)
  {
    if storeUp then Success(Recent(history.records, HistoryLimit))
    else Error(StatusServerError, InternalError)
  }

  /** An answer never holds a record that is not stored. */
  lemma AnswerIsStored(records: seq<Run>, r: seq<Run>, limit: nat, x: Run)
    requires IsNewestFirst(records, r, limit) && x in r
    ensures x in records
  {
    assert x in multiset(r);
  }

  /**
   * While the store holds fewer records than the limit, a newly inserted one
   * is in every valid answer, whatever its session.
   */
  lemma InsertedRunIsReturned(before: seq<Run>, run: Run, limit: nat, r: seq<Run>)
    requires |before| < limit && IsNewestFirst(before + [run], r, limit)
    ensures run in r
  {
    assert run in multiset(before + [run]);
    assert run in multiset(r);
  }

  /** A run inserted later than every stored run comes first in every valid answer. */
  lemma NewestRunComesFirst(before: seq<Run>, run: Run, limit: nat, r: seq<Run>)
    requires limit > 0 && IsNewestFirst(before + [run], r, limit)
    requires forall x :: x in before ==> x.createdAt < run.createdAt
    ensures |r| > 0 && r[0] == run
  {
    var after := before + [run];
    // r[0] is stored; were it an older run, the newer `run` would have to be
    // left out (newer than r[0]) or come later in r (not newer): neither can be.
    AnswerIsStored(after, r, limit, r[0]);
    assert run in after;
  }
}
