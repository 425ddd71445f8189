/** The SQLite store of welcomed members. Unlike the document store, a rejoin never changes the
    status: the call asks for a welcome only when the last welcome did not succeed, and marking
    a success leaves the retry count as it was. The table is an in-memory sequence of rows;
    `dbOk == false` stands for a statement that raises. */
module WelcomedMembersSql {
  import opened Common
  import opened WelcomeRecords

  /** The UPDATE of `add_or_update_member`: one more join and the new name; after a successful
      welcome the retry count and time are cleared. The status column is not touched. */
  function Rejoined(r: Record, username: string): (r': Record)
    ensures r'.joinCount == r.joinCount + 1 && r'.username == username && r'.status == r.status
    ensures r'.userId == r.userId && r'.guildId == r.guildId && r'.firstWelcomedAt == r.firstWelcomedAt
  {
    var r1 := r.(joinCount := r.joinCount + 1, username := username);
    if r.status == Success then r1.(retryCount := 0, lastRetryAt := None) else r1
  }

  /** `mark_welcome_success`: only the status changes. */
  function MarkedSuccess(r: Record): (r': Record)
    ensures r'.status == Success
  {
    r.(status := Success)
  }

  /** A member who rejoins after a successful welcome is not welcomed again here: the call says
      no welcome is needed, and the record, still a success, is never due for a retry. Any other
      rejoin asks for a welcome and keeps the retry data. */
  lemma RejoinAfterSuccess(r: Record, username: string, maxRetry: int, intervalMinutes: int, now: int)
    ensures r.status == Success ==> !DueForRetry(Rejoined(r, username), maxRetry, intervalMinutes, now)
    ensures r.status != Success ==>
      && Rejoined(r, username).retryCount == r.retryCount
      && Rejoined(r, username).lastRetryAt == r.lastRetryAt
      && (DueForRetry(Rejoined(r, username), maxRetry, intervalMinutes, now) <==> DueForRetry(r, maxRetry, intervalMinutes, now))
  {
  }

  /** After a success, a later failure continues the old retry count rather than starting from
      one, so a member whose welcome failed, then succeeded, then failed again has fewer retries
      left than in the document store. */
  lemma SuccessKeepsRetryCount(r: Record, failedAt: int)
    ensures MarkedSuccess(r).retryCount == r.retryCount
    ensures MarkedFailed(MarkedSuccess(r), failedAt).retryCount == r.retryCount + 1
  {
  }

  class WelcomedMembersDb {
    var rows: seq<Record>

    /** `UNIQUE(user_id, guild_id)`. */
    predicate Valid()
      reads this
    {
      UniqueMembers(rows)
    }

    constructor ()
      ensures Valid() && rows == []
    {
      rows := [];
    }

    /** `add_or_update_member`: (status is not success, join count) after updating an
        existing row; (true, 1) after inserting a pending row for a new member; (false, 0)
        when the database fails, with nothing changed. */
    method AddOrUpdateMember(userId: int, guildId: int, username: string, now: int, dbOk: bool)
      returns (needWelcome: bool, joinCount: int)
      requires Valid()
      modifies this
      ensures Valid()
      ensures !dbOk ==> !needWelcome && joinCount == 0 && rows == old(rows)
      ensures dbOk && IndexOfMember(old(rows), userId, guildId).None? ==>
        needWelcome && joinCount == 1 && rows == old(rows) + [NewRecord(userId, guildId, username, now)]
      ensures dbOk && IndexOfMember(old(rows), userId, guildId).Some? ==>
        var k := IndexOfMember(old(rows), userId, guildId).value;
        && needWelcome == (old(rows)[k].status != Success)
        && joinCount == old(rows)[k].joinCount + 1
        && rows == old(rows)[k := Rejoined(old(rows)[k], username)]
    {
      if !dbOk {
        return false, 0;
      }
      var k := IndexOfMember(rows, userId, guildId);
      if k.Some? {
        var r := Rejoined(rows[k.value], username);
        UpdateKeepsUnique(rows, k.value, r);
        rows := rows[k.value := r];
        return r.status != Success, r.joinCount;
      }
      AppendKeepsUnique(rows, NewRecord(userId, guildId, username, now));
      rows := rows + [NewRecord(userId, guildId, username, now)];
      return true, 1;
    }

    /** `mark_welcome_success`: the member's row, if any, gets status success; nothing else
        changes. */
    method MarkWelcomeSuccess(userId: int, guildId: int, dbOk: bool)
      requires Valid()
      modifies this
      ensures Valid()
      ensures !dbOk || IndexOfMember(old(rows), userId, guildId).None? ==> rows == old(rows)
      ensures dbOk && IndexOfMember(old(rows), userId, guildId).Some? ==>
        var k := IndexOfMember(old(rows), userId, guildId).value;
        rows == old(rows)[k := MarkedSuccess(old(rows)[k])]
    {
      var k := IndexOfMember(rows, userId, guildId);
      if dbOk && k.Some? {
        UpdateKeepsUnique(rows, k.value, MarkedSuccess(rows[k.value]));
        rows := rows[k.value := MarkedSuccess(rows[k.value])];
      }
    }

    /** `mark_welcome_failed`: the member's row, if any, is failed with one more retry stamped
        `now`; nothing else changes. */
    method MarkWelcomeFailed(userId: int, guildId: int, now: int, dbOk: bool)
      requires Valid()
      modifies this
      ensures Valid()
      ensures !dbOk || IndexOfMember(old(rows), userId, guildId).None? ==> rows == old(rows)
      ensures dbOk && IndexOfMember(old(rows), userId, guildId).Some? ==>
        var k := IndexOfMember(old(rows), userId, guildId).value;
        rows == old(rows)[k := MarkedFailed(old(rows)[k], now)]
    {
      var k := IndexOfMember(rows, userId, guildId);
      if dbOk && k.Some? {
        UpdateKeepsUnique(rows, k.value, MarkedFailed(rows[k.value], now));
        rows := rows[k.value := MarkedFailed(rows[k.value], now)];
      }
    }

    /** `get_member_join_count`. */
    function GetMemberJoinCount(userId: int, guildId: int, dbOk: bool): (n: int)
      reads this
      ensures !dbOk ==> n == 0
      ensures (forall i :: 0 <= i < |rows| ==> !SameMember(rows[i], userId, guildId)) ==> n == 0
      ensures dbOk && (exists i :: 0 <= i < |rows| && SameMember(rows[i], userId, guildId)) ==>
        exists i :: 0 <= i < |rows| && SameMember(rows[i], userId, guildId) && n == rows[i].joinCount
    {
      if dbOk then JoinCountOf(rows, userId, guildId) else 0
    }

    /** `get_pending_welcomes`: the due rows ordered by `last_retry_at` ascending (NULL first);
        [] when the query fails. */
    function GetPendingWelcomes(maxRetry: int, intervalMinutes: int, now: int, dbOk: bool): (r: seq<PendingWelcome>)
      reads this
      ensures !dbOk ==> r == []
      ensures dbOk ==> forall x :: x in rows && DueForRetry(x, maxRetry, intervalMinutes, now) ==> Summary(x) in r
      ensures forall i :: 0 <= i < |r| ==> SummaryOfDue(r[i], rows, maxRetry, intervalMinutes, now)
    {
      if dbOk then
        PendingWelcomesMembers(rows, maxRetry, intervalMinutes, now);
        PendingWelcomes(rows, maxRetry, intervalMinutes, now)
      else []
    }
  }
}
