/** What the two welcomed-member stores share: the record of a member who joined a guild, the
    retry filter for welcomes that still have to be sent, and its ordering by the time of the
    last retry. Times are integer seconds. */
module WelcomeRecords {
  import opened Common

  datatype WelcomeStatus = Pending | Success | Failed

  /** One row/document of `welcomed_members`. */
  datatype Record = Record(
    userId: int, guildId: int, username: string, joinCount: int, firstWelcomedAt: int,
    status: WelcomeStatus, retryCount: int, lastRetryAt: Option<int>)

  /** One entry of the list `get_pending_welcomes` returns. */
  datatype PendingWelcome = PendingWelcome(userId: int, guildId: int, username: string, retryCount: int)

  /** The record of a member welcomed for the first time: pending, joined once, never retried. */
  function NewRecord(userId: int, guildId: int, username: string, now: int): (r: Record)
    ensures r.status == Pending && r.joinCount == 1 && r.retryCount == 0 && r.lastRetryAt.None?
    ensures r.userId == userId && r.guildId == guildId && r.username == username && r.firstWelcomedAt == now
  {
    Record(userId, guildId, username, 1, now, Pending, 0, None)
  }

  /** `mark_welcome_failed` in both stores: failed, one more retry, last retry now. */
  function MarkedFailed(r: Record, now: int): (r': Record)
    ensures r'.status == Failed && r'.retryCount == r.retryCount + 1 && r'.lastRetryAt == Some(now)
    ensures r'.(status := r.status, retryCount := r.retryCount, lastRetryAt := r.lastRetryAt) == r
  {
    r.(status := Failed, retryCount := r.retryCount + 1, lastRetryAt := Some(now))
  }

  /** The retry filter of `get_pending_welcomes`: pending or failed, fewer than `maxRetry`
      retries, and either never retried or last retried at least the interval ago. */
  predicate DueForRetry(r: Record, maxRetry: int, intervalMinutes: int, now: int) {
    && (r.status == Pending || r.status == Failed)
    && r.retryCount < maxRetry
    && (r.lastRetryAt.None? || r.lastRetryAt.value + 60 * intervalMinutes <= now)
  }

  /** A first failure of a new record makes it due again once the interval has passed, and
      never before; a record whose retries reached `maxRetry` is never due. */
  lemma FailedRetryTiming(r: Record, maxRetry: int, intervalMinutes: int, failedAt: int, now: int)
    requires r.status != Success && r.retryCount + 1 < maxRetry
    ensures DueForRetry(MarkedFailed(r, failedAt), maxRetry, intervalMinutes, now)
            <==> now >= failedAt + 60 * intervalMinutes
  {
  }

  /** Failing k times in a row from a fresh record leaves retryCount == k, so the record stops
      being due after `maxRetry` failures. */
  function FailTimes(r: Record, times: seq<int>): (r': Record)
    decreases |times|
  {
    if times == [] then r else FailTimes(MarkedFailed(r, times[0]), times[1..])
  }

  lemma {:induction false} FailTimesCount(r: Record, times: seq<int>, maxRetry: int, intervalMinutes: int, now: int)
    requires times != []
    ensures FailTimes(r, times).retryCount == r.retryCount + |times|
    ensures FailTimes(r, times).status == Failed
    ensures r.retryCount + |times| >= maxRetry ==> !DueForRetry(FailTimes(r, times), maxRetry, intervalMinutes, now)
    decreases |times|
  {
    if |times| > 1 {
      FailTimesCount(MarkedFailed(r, times[0]), times[1..], maxRetry, intervalMinutes, now);
    }
  }

  /** The records due for a retry, in store order. */
  function DueRecords(rows: seq<Record>, maxRetry: int, intervalMinutes: int, now: int): (r: seq<Record>)
    ensures |r| <= |rows|
    ensures forall i :: 0 <= i < |r| ==> r[i] in rows && DueForRetry(r[i], maxRetry, intervalMinutes, now)
    decreases |rows|
  {
    if rows == [] then []
    else
      var rest := DueRecords(rows[..|rows| - 1], maxRetry, intervalMinutes, now);
      var last := rows[|rows| - 1];
      if DueForRetry(last, maxRetry, intervalMinutes, now) then rest + [last] else rest
  }

  /** Every record that is due is kept. */
  lemma {:induction false} DueRecordsComplete(rows: seq<Record>, maxRetry: int, intervalMinutes: int, now: int, x: Record)
    requires x in rows && DueForRetry(x, maxRetry, intervalMinutes, now)
    ensures x in DueRecords(rows, maxRetry, intervalMinutes, now)
    decreases |rows|
  {
    if x != rows[|rows| - 1] {
      assert x in rows[..|rows| - 1] by {
        var i :| 0 <= i < |rows| && rows[i] == x;
        assert rows[..|rows| - 1][i] == x;
      }
      DueRecordsComplete(rows[..|rows| - 1], maxRetry, intervalMinutes, now, x);
    }
  }

  // ---------------------------------------------------------------------------
  // ORDER BY last_retry_at ASC (a missing time sorts first)

  predicate RetryBefore(a: Record, b: Record) {
    a.lastRetryAt.None? || (b.lastRetryAt.Some? && a.lastRetryAt.value <= b.lastRetryAt.value)
  }

  predicate SortedByRetry(s: seq<Record>) {
    forall i, j :: 0 <= i < j < |s| ==> RetryBefore(s[i], s[j])
  }

  /** x comes no later than any element of `m`. */
  predicate FirstBefore(x: Record, m: multiset<Record>) {
    forall y :: y in m ==> RetryBefore(x, y)
  }

  function InsertByRetry(x: Record, s: seq<Record>): (r: seq<Record>)
    requires SortedByRetry(s)
    ensures SortedByRetry(r)
    ensures multiset(r) == multiset(s) + multiset{x}
    decreases |s|
  {
    if s == [] then [x]
    else if RetryBefore(x, s[0]) then
      assert forall j :: 0 <= j < |s| ==> RetryBefore(s[0], s[j]) || j == 0;
      [x] + s
    else
      var rest := InsertByRetry(x, s[1..]);
      assert s == [s[0]] + s[1..];
      HeadBeforeInserted(x, s, rest);
      ConsSorted(s[0], rest);
      [s[0]] + rest
  }

  /** The head of a sorted sequence still comes first once a later record is inserted into
      its tail. */
  lemma HeadBeforeInserted(x: Record, s: seq<Record>, rest: seq<Record>)
    requires s != [] && SortedByRetry(s) && !RetryBefore(x, s[0])
    requires multiset(rest) == multiset(s[1..]) + multiset{x}
    ensures FirstBefore(s[0], multiset(rest))
  {
    forall y | y in multiset(rest) ensures RetryBefore(s[0], y) {
      if y != x {
        assert y in multiset(s[1..]);
        var j :| 0 <= j < |s[1..]| && s[1..][j] == y;
        assert s[j + 1] == y;
      }
    }
  }

  lemma ConsSorted(x: Record, s: seq<Record>)
    requires SortedByRetry(s) && FirstBefore(x, multiset(s))
    ensures SortedByRetry([x] + s)
  {
    forall i, j | 0 <= i < j < |[x] + s| ensures RetryBefore(([x] + s)[i], ([x] + s)[j]) {
      if i == 0 {
        assert ([x] + s)[j] == s[j - 1] && s[j - 1] in multiset(s);
      } else {
        assert ([x] + s)[i] == s[i - 1] && ([x] + s)[j] == s[j - 1];
      }
    }
  }

  /** A stable insertion sort by last retry time. */
  function SortByRetry(s: seq<Record>): (r: seq<Record>)
    ensures SortedByRetry(r)
    ensures multiset(r) == multiset(s)
    decreases |s|
  {
    if s == [] then []
    else
      assert s == [s[0]] + s[1..];
      InsertByRetry(s[0], SortByRetry(s[1..]))
  }

  function Summary(r: Record): PendingWelcome {
    PendingWelcome(r.userId, r.guildId, r.username, r.retryCount)
  }

  function Summaries(rs: seq<Record>): (p: seq<PendingWelcome>)
    ensures |p| == |rs|
    ensures forall i :: 0 <= i < |rs| ==> p[i] == Summary(rs[i])
  {
    if rs == [] then [] else [Summary(rs[0])] + Summaries(rs[1..])
  }

  /** What `get_pending_welcomes` returns from the rows `rows`. */
  function PendingWelcomes(rows: seq<Record>, maxRetry: int, intervalMinutes: int, now: int): seq<PendingWelcome> {
    Summaries(SortByRetry(DueRecords(rows, maxRetry, intervalMinutes, now)))
  }

  /** The pending list holds exactly the due records, each once per row, ordered by the time of
      their last retry with never-retried records first. */
  lemma PendingWelcomesExact(rows: seq<Record>, maxRetry: int, intervalMinutes: int, now: int, x: Record)
    ensures var sorted := SortByRetry(DueRecords(rows, maxRetry, intervalMinutes, now));
      && PendingWelcomes(rows, maxRetry, intervalMinutes, now) == Summaries(sorted)
      && SortedByRetry(sorted)
      && (x in sorted <==> x in rows && DueForRetry(x, maxRetry, intervalMinutes, now))
  {
    var due := DueRecords(rows, maxRetry, intervalMinutes, now);
    var sorted := SortByRetry(due);
    assert x in sorted <==> x in multiset(sorted);
    assert x in due <==> x in multiset(due);
    if x in rows && DueForRetry(x, maxRetry, intervalMinutes, now) {
      DueRecordsComplete(rows, maxRetry, intervalMinutes, now, x);
    }
  }

  /** A due record has its summary in the pending list. */
  lemma PendingHasDue(rows: seq<Record>, maxRetry: int, intervalMinutes: int, now: int, x: Record)
    requires x in rows && DueForRetry(x, maxRetry, intervalMinutes, now)
    ensures Summary(x) in PendingWelcomes(rows, maxRetry, intervalMinutes, now)
  {
    var due := DueRecords(rows, maxRetry, intervalMinutes, now);
    var sorted := SortByRetry(due);
    DueRecordsComplete(rows, maxRetry, intervalMinutes, now, x);
    assert x in multiset(sorted);
    var i :| 0 <= i < |sorted| && sorted[i] == x;
    assert Summaries(sorted)[i] == Summary(x);
  }

  /** `p` is what the pending list shows of some due record of `rows`. */
  predicate SummaryOfDue(p: PendingWelcome, rows: seq<Record>, maxRetry: int, intervalMinutes: int, now: int) {
    exists x :: x in rows && DueForRetry(x, maxRetry, intervalMinutes, now) && p == Summary(x)
  }

  /** Each entry of the pending list is the summary of a due record. */
  lemma PendingFromDue(rows: seq<Record>, maxRetry: int, intervalMinutes: int, now: int, i: nat)
    requires i < |PendingWelcomes(rows, maxRetry, intervalMinutes, now)|
    ensures SummaryOfDue(PendingWelcomes(rows, maxRetry, intervalMinutes, now)[i], rows, maxRetry, intervalMinutes, now)
  {
    var due := DueRecords(rows, maxRetry, intervalMinutes, now);
    var sorted := SortByRetry(due);
    assert sorted[i] in multiset(due);
    var j :| 0 <= j < |due| && due[j] == sorted[i];
    assert PendingWelcomes(rows, maxRetry, intervalMinutes, now)[i] == Summary(sorted[i]);
  }

  /** The pending list holds the summaries of the due records and nothing else. */
  lemma PendingWelcomesMembers(rows: seq<Record>, maxRetry: int, intervalMinutes: int, now: int)
    ensures forall x :: x in rows && DueForRetry(x, maxRetry, intervalMinutes, now) ==>
      Summary(x) in PendingWelcomes(rows, maxRetry, intervalMinutes, now)
    ensures forall i :: 0 <= i < |PendingWelcomes(rows, maxRetry, intervalMinutes, now)| ==>
      SummaryOfDue(PendingWelcomes(rows, maxRetry, intervalMinutes, now)[i], rows, maxRetry, intervalMinutes, now)
  {
    forall x | x in rows && DueForRetry(x, maxRetry, intervalMinutes, now) {
      PendingHasDue(rows, maxRetry, intervalMinutes, now, x);
    }
    forall i | 0 <= i < |PendingWelcomes(rows, maxRetry, intervalMinutes, now)| {
      PendingFromDue(rows, maxRetry, intervalMinutes, now, i);
    }
  }

  // ---------------------------------------------------------------------------
  // Tables keyed by (user, guild)

  predicate SameMember(r: Record, userId: int, guildId: int) {
    r.userId == userId && r.guildId == guildId
  }

  /** At most one record per (user, guild). */
  predicate UniqueMembers(rows: seq<Record>) {
    forall i, j :: 0 <= i < j < |rows| ==> !(rows[i].userId == rows[j].userId && rows[i].guildId == rows[j].guildId)
  }

  /** Where the record of (user, guild) is, if there is one. */
  function IndexOfMember(rows: seq<Record>, userId: int, guildId: int): (k: Option<nat>)
    ensures k.Some? ==> k.value < |rows| && SameMember(rows[k.value], userId, guildId)
    ensures k.None? ==> forall i :: 0 <= i < |rows| ==> !SameMember(rows[i], userId, guildId)
    decreases |rows|
  {
    if rows == [] then None
    else if SameMember(rows[|rows| - 1], userId, guildId) then Some(|rows| - 1)
    else IndexOfMember(rows[..|rows| - 1], userId, guildId)
  }

  /** Replacing one record by one for the same member keeps the keys unique. */
  lemma UpdateKeepsUnique(rows: seq<Record>, k: nat, r: Record)
    requires UniqueMembers(rows) && k < |rows| && SameMember(r, rows[k].userId, rows[k].guildId)
    ensures UniqueMembers(rows[k := r])
  {
    var rows' := rows[k := r];
    forall i, j | 0 <= i < j < |rows'| ensures !(rows'[i].userId == rows'[j].userId && rows'[i].guildId == rows'[j].guildId) {
      assert !SameMember(rows[i], rows[j].userId, rows[j].guildId);
    }
  }

  /** Appending the record of a member that has none keeps the keys unique. */
  lemma AppendKeepsUnique(rows: seq<Record>, r: Record)
    requires UniqueMembers(rows)
    requires forall i :: 0 <= i < |rows| ==> !SameMember(rows[i], r.userId, r.guildId)
    ensures UniqueMembers(rows + [r])
  {
  }

  /** `get_member_join_count`: the member's join count, or 0 without a record. */
  function JoinCountOf(rows: seq<Record>, userId: int, guildId: int): (n: int)
    ensures IndexOfMember(rows, userId, guildId).None? ==> n == 0
    ensures IndexOfMember(rows, userId, guildId).Some? ==> n == rows[IndexOfMember(rows, userId, guildId).value].joinCount
  {
    var k := IndexOfMember(rows, userId, guildId);
    if k.Some? then rows[k.value].joinCount else 0
  }

  /** With unique keys the member found is the only one, wherever it sits. */
  lemma IndexOfMemberUnique(rows: seq<Record>, i: nat)
    requires UniqueMembers(rows) && i < |rows|
    ensures IndexOfMember(rows, rows[i].userId, rows[i].guildId) == Some(i)
  {
  }
}
