/** The document store of welcomed members: a rejoin always asks for a new welcome, and a
    rejoin after a successful welcome starts the retry bookkeeping over. The collection is an
    in-memory table; `dbOk == false` stands for a database call that raises. */
module WelcomedMembersDocs {
  import opened Common
  import opened WelcomeRecords

  /** `StringField(max_length=200)` on `username`: a longer name fails validation on save. */
  const MaxUsernameLength: nat := 200

  /** A rejoin: one more join and the new name; after a successful welcome the retry data is
      cleared and the record is pending again, otherwise status and retry data are kept. */
  function Rejoined(r: Record, username: string): (r': Record)
    ensures r'.joinCount == r.joinCount + 1 && r'.username == username
    ensures r'.userId == r.userId && r'.guildId == r.guildId && r'.firstWelcomedAt == r.firstWelcomedAt
  {
    var r1 := r.(joinCount := r.joinCount + 1, username := username);
    if r.status == Success then r1.(retryCount := 0, lastRetryAt := None, status := Pending) else r1
  }

  /** `mark_welcome_success`: success, and the retry data cleared. */
  function MarkedSuccess(r: Record): (r': Record)
    ensures r'.status == Success
  {
    r.(status := Success, retryCount := 0, lastRetryAt := None)
  }

  /** A member who rejoins after a successful welcome is due for a welcome at once (whenever
      any retry is allowed); any other rejoin keeps the status and the retry data, so a
      rejoin never brings back a welcome that ran out of retries. */
  lemma RejoinRetryData(r: Record, username: string, maxRetry: int, intervalMinutes: int, now: int)
    ensures r.status == Success && maxRetry > 0 ==> DueForRetry(Rejoined(r, username), maxRetry, intervalMinutes, now)
    ensures r.status != Success ==>
      && Rejoined(r, username).status == r.status
      && Rejoined(r, username).retryCount == r.retryCount
      && Rejoined(r, username).lastRetryAt == r.lastRetryAt
      && (DueForRetry(Rejoined(r, username), maxRetry, intervalMinutes, now) <==> DueForRetry(r, maxRetry, intervalMinutes, now))
  {
  }

  /** A successful welcome is never retried, and a failure after it counts retries from one. */
  lemma SuccessEndsRetries(r: Record, maxRetry: int, intervalMinutes: int, now: int, failedAt: int)
    ensures !DueForRetry(MarkedSuccess(r), maxRetry, intervalMinutes, now)
    ensures MarkedFailed(MarkedSuccess(r), failedAt).retryCount == 1
  {
  }

  /** Members of one guild with one status. */
  function CountStatus(rows: seq<Record>, guildId: int, s: WelcomeStatus): (n: nat)
    ensures n <= |rows|
  {
    if rows == [] then 0
    else CountStatus(rows[..|rows| - 1], guildId, s) + (if rows[|rows| - 1].guildId == guildId && rows[|rows| - 1].status == s then 1 else 0)
  }

  /** Members of one guild. */
  function CountGuild(rows: seq<Record>, guildId: int): (n: nat)
    ensures n <= |rows|
  {
    if rows == [] then 0
    else CountGuild(rows[..|rows| - 1], guildId) + (if rows[|rows| - 1].guildId == guildId then 1 else 0)
  }

  /** `get_welcome_statistics`' counts: the three status counts add up to the total. */
  lemma {:induction false} StatisticsPartition(rows: seq<Record>, guildId: int)
    ensures CountStatus(rows, guildId, Success) + CountStatus(rows, guildId, Pending) + CountStatus(rows, guildId, Failed)
            == CountGuild(rows, guildId)
    decreases |rows|
  {
    if rows != [] {
      StatisticsPartition(rows[..|rows| - 1], guildId);
    }
  }

  /** `cleanup_old_records` deletes a record exactly when its welcome succeeded and it was
      first welcomed before the cutoff. */
  predicate Stale(r: Record, cutoff: int) {
    r.status == Success && r.firstWelcomedAt < cutoff
  }

  function KeepFresh(rows: seq<Record>, cutoff: int): (r: seq<Record>)
    ensures |r| <= |rows|
    ensures forall i :: 0 <= i < |r| ==> r[i] in rows && !Stale(r[i], cutoff)
    ensures forall i :: 0 <= i < |rows| && !Stale(rows[i], cutoff) ==> rows[i] in r
    decreases |rows|
  {
    if rows == [] then []
    else
      var rest := KeepFresh(rows[..|rows| - 1], cutoff);
      var last := rows[|rows| - 1];
      assert forall i :: 0 <= i < |rows| - 1 ==> rows[i] == rows[..|rows| - 1][i];
      if Stale(last, cutoff) then rest else rest + [last]
  }

  lemma {:induction false} KeepFreshUnique(rows: seq<Record>, cutoff: int)
    requires UniqueMembers(rows)
    ensures UniqueMembers(KeepFresh(rows, cutoff))
    decreases |rows|
  {
    if rows != [] {
      var front := rows[..|rows| - 1];
      assert UniqueMembers(front);
      KeepFreshUnique(front, cutoff);
      var last := rows[|rows| - 1];
      if !Stale(last, cutoff) {
        forall i | 0 <= i < |KeepFresh(front, cutoff)| ensures !SameMember(KeepFresh(front, cutoff)[i], last.userId, last.guildId) {
          var x := KeepFresh(front, cutoff)[i];
          var j :| 0 <= j < |front| && front[j] == x;
          assert rows[j] == x;
        }
        AppendKeepsUnique(KeepFresh(front, cutoff), last);
      }
    }
  }

  class WelcomedMembersMongo {
    var rows: seq<Record>

    /** One record per (user, guild), every name within the field's limit. */
    predicate Valid()
      reads this
    {
      UniqueMembers(rows) && forall i :: 0 <= i < |rows| ==> |rows[i].username| <= MaxUsernameLength
    }

    constructor ()
      ensures Valid() && rows == []
    {
      rows := [];
    }

    /** `add_or_update_member`: (need a welcome, join count). A first join stores a new
        pending record and gives (true, 1); a rejoin gives (true, the new count); a name the
        field rejects or a failing database gives (false, 0) and changes nothing. */
    method AddOrUpdateMember(userId: int, guildId: int, username: string, now: int, dbOk: bool)
      returns (needWelcome: bool, joinCount: int)
      requires Valid()
      modifies this
      ensures Valid()
      ensures !dbOk || |username| > MaxUsernameLength ==> !needWelcome && joinCount == 0 && rows == old(rows)
      ensures dbOk && |username| <= MaxUsernameLength ==> needWelcome
      ensures dbOk && |username| <= MaxUsernameLength && IndexOfMember(old(rows), userId, guildId).None? ==>
        joinCount == 1 && rows == old(rows) + [NewRecord(userId, guildId, username, now)]
      ensures dbOk && |username| <= MaxUsernameLength && IndexOfMember(old(rows), userId, guildId).Some? ==>
        var k := IndexOfMember(old(rows), userId, guildId).value;
        joinCount == old(rows)[k].joinCount + 1 && rows == old(rows)[k := Rejoined(old(rows)[k], username)]
    {
      if !dbOk || |username| > MaxUsernameLength {
        return false, 0;
      }
      var k := IndexOfMember(rows, userId, guildId);
      if k.Some? {
        var r := Rejoined(rows[k.value], username);
        UpdateKeepsUnique(rows, k.value, r);
        rows := rows[k.value := r];
        return true, r.joinCount;
      }
      AppendKeepsUnique(rows, NewRecord(userId, guildId, username, now));
      rows := rows + [NewRecord(userId, guildId, username, now)];
      return true, 1;
    }

    /** `mark_welcome_success`: the member's record, if any, becomes a success with its retry
        data cleared; nothing else changes. */
    method MarkWelcomeSuccess(userId: int, guildId: int, dbOk: bool)
      requires Valid()
      modifies this
      ensures Valid()
      ensures !dbOk || IndexOfMember(old(rows), userId, guildId).None? ==> rows == old(rows)
      ensures dbOk && IndexOfMember(old(rows), userId, guildId).Some? ==>
        var k := IndexOfMember(old(rows), userId, guildId).value;
        rows == old(rows)[k := MarkedSuccess(old(rows)[k])]
    {
      var k := IndexOfMember(rows, userId, guildId);
      if dbOk && k.Some? {
        UpdateKeepsUnique(rows, k.value, MarkedSuccess(rows[k.value]));
        rows := rows[k.value := MarkedSuccess(rows[k.value])];
      }
    }

    /** `mark_welcome_failed`: the member's record, if any, is failed with one more retry
        stamped `now`; nothing else changes. */
    method MarkWelcomeFailed(userId: int, guildId: int, now: int, dbOk: bool)
      requires Valid()
      modifies this
      ensures Valid()
      ensures !dbOk || IndexOfMember(old(rows), userId, guildId).None? ==> rows == old(rows)
      ensures dbOk && IndexOfMember(old(rows), userId, guildId).Some? ==>
        var k := IndexOfMember(old(rows), userId, guildId).value;
        rows == old(rows)[k := MarkedFailed(old(rows)[k], now)]
    {
      var k := IndexOfMember(rows, userId, guildId);
      if dbOk && k.Some? {
        UpdateKeepsUnique(rows, k.value, MarkedFailed(rows[k.value], now));
        rows := rows[k.value := MarkedFailed(rows[k.value], now)];
      }
    }

    /** `get_member_join_count`. */
    function GetMemberJoinCount(userId: int, guildId: int, dbOk: bool): (n: int)
      reads this
      ensures !dbOk ==> n == 0
      ensures (forall i :: 0 <= i < |rows| ==> !SameMember(rows[i], userId, guildId)) ==> n == 0
      ensures dbOk && (exists i :: 0 <= i < |rows| && SameMember(rows[i], userId, guildId)) ==>
        exists i :: 0 <= i < |rows| && SameMember(rows[i], userId, guildId) && n == rows[i].joinCount
    {
      if dbOk then JoinCountOf(rows, userId, guildId) else 0
    }

    /** `get_pending_welcomes`: the due records ordered by last retry; [] when the query fails. */
    function GetPendingWelcomes(maxRetry: int, intervalMinutes: int, now: int, dbOk: bool): (r: seq<PendingWelcome>)
      reads this
      ensures !dbOk ==> r == []
      ensures dbOk ==> forall x :: x in rows && DueForRetry(x, maxRetry, intervalMinutes, now) ==> Summary(x) in r
      ensures forall i :: 0 <= i < |r| ==> SummaryOfDue(r[i], rows, maxRetry, intervalMinutes, now)
    {
      if dbOk then
        PendingWelcomesMembers(rows, maxRetry, intervalMinutes, now);
        PendingWelcomes(rows, maxRetry, intervalMinutes, now)
      else []
    }

    /** `cleanup_old_records`: deletes the successful records first welcomed more than `days`
        days before `now` and returns how many went; a failing database deletes nothing. */
    method CleanupOldRecords(days: int, now: int, dbOk: bool) returns (deleted: int)
      requires Valid()
      modifies this
      ensures Valid()
      ensures !dbOk ==> rows == old(rows) && deleted == 0
      ensures dbOk ==> rows == KeepFresh(old(rows), now - days * 86400) && deleted == |old(rows)| - |rows|
    {
      if !dbOk {
        return 0;
      }
      var before := rows;
      KeepFreshUnique(rows, now - days * 86400);
      rows := KeepFresh(rows, now - days * 86400);
      deleted := |before| - |rows|;
    }
  }
}
