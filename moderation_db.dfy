/** The SQLite moderation store: the violations, mutes and users tables as in-memory rows with
    autoincrement ids, and the queries over them. Times are integer seconds; one clock `now`
    stands for both `datetime.now()` and SQLite's `CURRENT_TIMESTAMP`. */
module ModerationSql {
  import opened Common
  import opened MuteLadder

  /** A row of `violations`; `categories` is the comma-joined text column and `details` the
      already rendered `str(details)`. */
  datatype ViolationRow = ViolationRow(
    id: nat, userId: int, guildId: int, content: Option<string>,
    categories: Option<string>, details: Option<string>, createdAt: int)

  /** A row of `mutes`. */
  datatype MuteRow = MuteRow(
    id: nat, userId: int, guildId: int, violationCount: int, durationMinutes: Option<int>,
    startedAt: int, expiresAt: Option<int>, isActive: bool, deactivatedAt: Option<int>)

  /** A row of `users`. */
  datatype UserRow = UserRow(username: Option<string>, firstSeen: int, lastViolation: int)

  /** The categories column: the names joined by commas, or NULL for an empty list. */
  function CategoriesColumn(categories: seq<string>): (c: Option<string>)
    ensures c.None? <==> categories == []
  {
    if categories == [] then None else Some(Join(categories, ","))
  }

  /** A stored column splits back into the category names, as long as no name holds a comma. */
  lemma CategoriesColumnSplits(categories: seq<string>)
    requires categories != []
    requires forall i :: 0 <= i < |categories| ==> ',' !in categories[i]
    ensures CategoriesColumn(categories).Some?
    ensures Split(CategoriesColumn(categories).value, ',') == categories
  {
    assert "," == [','];
    JoinSplit(categories, ',');
  }

  predicate IsFor(r: ViolationRow, user: int, guild: int) {
    r.userId == user && r.guildId == guild
  }

  function RowsFor(user: int, guild: int): ViolationRow -> bool {
    (r: ViolationRow) => IsFor(r, user, guild)
  }

  /** An active mute whose expiry is set and has passed. */
  predicate IsExpired(m: MuteRow, now: int) {
    m.isActive && m.expiresAt.Some? && m.expiresAt.value <= now
  }

  function Closed(m: MuteRow, now: int): MuteRow {
    m.(isActive := false, deactivatedAt := Some(now))
  }

  /** Every row whose id is in `ids` made inactive at `now`; the other rows unchanged. */
  function Deactivate(rows: seq<MuteRow>, ids: set<nat>, now: int): (r: seq<MuteRow>)
    ensures |r| == |rows|
  {
    seq(|rows|, i requires 0 <= i < |rows| => if rows[i].id in ids then Closed(rows[i], now) else rows[i])
  }

  /** Every expired row made inactive at `now`; the other rows unchanged. */
  function Swept(rows: seq<MuteRow>, now: int): (r: seq<MuteRow>)
    ensures |r| == |rows|
  {
    seq(|rows|, i requires 0 <= i < |rows| => if IsExpired(rows[i], now) then Closed(rows[i], now) else rows[i])
  }

  function IdSet(rows: seq<MuteRow>): set<nat> {
    set r | r in rows :: r.id
  }

  lemma IdSetSnoc(rows: seq<MuteRow>, r: MuteRow)
    ensures IdSet(rows + [r]) == IdSet(rows) + {r.id}
  {
    assert forall x :: x in rows + [r] <==> x in rows || x == r;
  }

  /** Autoincrement ids: strictly increasing in insertion order. */
  predicate IncreasingIds(rows: seq<MuteRow>) {
    forall i, j :: 0 <= i < j < |rows| ==> rows[i].id < rows[j].id
  }

  /** Deactivating one id after a set of ids is deactivating both. */
  lemma DeactivateTwice(rows: seq<MuteRow>, ids: set<nat>, id: nat, now: int)
    ensures Deactivate(Deactivate(rows, ids, now), {id}, now) == Deactivate(rows, ids + {id}, now)
  {
  }

  /** With distinct ids, deactivating the ids of the expired rows is the sweep. */
  lemma DeactivateExpiredIsSweep(rows: seq<MuteRow>, now: int)
    requires IncreasingIds(rows)
    ensures Deactivate(rows, IdSet(Filter(rows, (m: MuteRow) => IsExpired(m, now))), now) == Swept(rows, now)
  {
    var p := (m: MuteRow) => IsExpired(m, now);
    var ex := Filter(rows, p);
    forall i | 0 <= i < |rows|
      ensures rows[i].id in IdSet(ex) <==> IsExpired(rows[i], now)
    {
      if IsExpired(rows[i], now) {
        assert rows[i] in ex;
      }
      if rows[i].id in IdSet(ex) {
        var r :| r in ex && r.id == rows[i].id;
        var k :| 0 <= k < |ex| && ex[k] == r;
        assert r in rows && p(r);
        var j :| 0 <= j < |rows| && rows[j] == r;
        assert j == i;
      }
    }
  }

  /** After a sweep no expired mute is left, so a second sweep changes nothing. */
  lemma SweptHasNoExpired(rows: seq<MuteRow>, now: int)
    ensures forall i :: 0 <= i < |Swept(rows, now)| ==> !IsExpired(Swept(rows, now)[i], now)
    ensures Swept(Swept(rows, now), now) == Swept(rows, now)
  {
  }

  /** The most recently started active mute among `rows` for the user in the guild. */
  predicate IsLatestActive(rows: seq<MuteRow>, user: int, guild: int, m: MuteRow) {
    && m in rows && m.isActive && m.userId == user && m.guildId == guild
    && forall i :: 0 <= i < |rows| && rows[i].isActive && rows[i].userId == user && rows[i].guildId == guild
         ==> rows[i].startedAt <= m.startedAt
  }

  class ModerationDb {
    var violations: seq<ViolationRow>
    var mutes: seq<MuteRow>
    var users: map<(int, int), UserRow>
    var nextViolationId: nat
    var nextMuteId: nat

    /** Autoincrement: the ids are increasing, and the next id is above all of them. */
    ghost predicate Valid()
      reads this
    {
      && IncreasingIds(mutes)
      && (forall i :: 0 <= i < |mutes| ==> mutes[i].id < nextMuteId)
      && (forall i :: 0 <= i < |violations| ==> violations[i].id < nextViolationId)
    }

    /** `create_tables` on a new database: every table empty, ids from 1. */
    constructor ()
      ensures Valid()
      ensures violations == [] && mutes == [] && users == map[]
      ensures nextViolationId == 1 && nextMuteId == 1
    {
      violations, mutes, users := [], [], map[];
      nextViolationId, nextMuteId := 1, 1;
    }

    /** `get_violation_count`: the number of violation rows of the user in the guild. */
    function ViolationCount(user: int, guild: int): (n: nat)
      reads this
      ensures n <= |violations|
      ensures n == 0 <==> forall i :: 0 <= i < |violations| ==> !IsFor(violations[i], user, guild)
    {
      CountWhere(violations, RowsFor(user, guild))
    }

    /** `add_violation`: the users row is replaced (its username and first-seen time go back to
        the defaults), one violation row with a new id is appended, and the user's count goes up
        by one while every other user's stays. */
    method AddViolation(user: int, guild: int, content: Option<string>, categories: seq<string>,
                        details: Option<string>, now: int)
      returns (id: nat)
      requires Valid()
      modifies this`users, this`violations, this`nextViolationId
      ensures Valid()
      ensures id == old(nextViolationId) && nextViolationId == id + 1
      ensures violations == old(violations) + [ViolationRow(id, user, guild, content, CategoriesColumn(categories), details, now)]
      ensures users == old(users)[(user, guild) := UserRow(None, now, now)]
      ensures mutes == old(mutes) && nextMuteId == old(nextMuteId)
      ensures ViolationCount(user, guild) == old(ViolationCount(user, guild)) + 1
      ensures forall u, g :: (u, g) != (user, guild) ==> ViolationCount(u, g) == old(ViolationCount(u, g))
    {
      users := users[(user, guild) := UserRow(None, now, now)];
      id := nextViolationId;
      var row := ViolationRow(id, user, guild, content, CategoriesColumn(categories), details, now);
      ghost var before := violations;
      violations := violations + [row];
      nextViolationId := nextViolationId + 1;
      forall u, g
        ensures ViolationCount(u, g) == CountWhere(before, RowsFor(u, g))
                                        + (if (u, g) == (user, guild) then 1 else 0)
      {
        CountWhereSnoc(before, row, RowsFor(u, g));
        assert RowsFor(u, g)(row) == IsFor(row, u, g);
      }
    }

    /** `add_mute`: one active mute row with a new id, started now, whose minutes and expiry
        follow the ladder when no duration is given (see `Window`). */
    method AddMute(user: int, guild: int, violationCount: int, duration: Option<int>, now: int)
      returns (id: nat)
      requires Valid()
      modifies this
      ensures Valid()
      ensures id == old(nextMuteId) && nextMuteId == id + 1
      ensures mutes == old(mutes) + [MuteRow(id, user, guild, violationCount,
                                             Window(violationCount, duration, now).durationMinutes, now,
                                             Window(violationCount, duration, now).expiresAt, true, None)]
      ensures violations == old(violations) && users == old(users) && nextViolationId == old(nextViolationId)
    {
      var w := Window(violationCount, duration, now);
      id := nextMuteId;
      mutes := mutes + [MuteRow(id, user, guild, violationCount, w.durationMinutes, now, w.expiresAt, true, None)];
      nextMuteId := nextMuteId + 1;
    }

    /** `get_active_mute`: None exactly when the user has no active mute in the guild; otherwise
        one of the most recently started ones. */
    method GetActiveMute(user: int, guild: int) returns (m: Option<MuteRow>)
      ensures m.None? <==> forall i :: 0 <= i < |mutes| ==> !(mutes[i].isActive && mutes[i].userId == user && mutes[i].guildId == guild)
      ensures m.Some? ==> IsLatestActive(mutes, user, guild, m.value)
    {
      m := None;
      var i := 0;
      while i < |mutes|
        invariant 0 <= i <= |mutes|
        invariant m.None? <==> forall k :: 0 <= k < i ==> !(mutes[k].isActive && mutes[k].userId == user && mutes[k].guildId == guild)
        invariant m.Some? ==> IsLatestActive(mutes[..i], user, guild, m.value)
      {
        var r := mutes[i];
        if r.isActive && r.userId == user && r.guildId == guild && (m.None? || r.startedAt > m.value.startedAt) {
          m := Some(r);
        }
        i := i + 1;
      }
      assert mutes[..i] == mutes;
    }

    /** `_deactivate_mute`: true exactly when a row has that id; that row is made inactive at
        `now` (even one already inactive), and nothing else changes. */
    method DeactivateMute(id: nat, now: int) returns (ok: bool)
      requires Valid()
      modifies this`mutes
      ensures Valid()
      ensures ok <==> id in IdSet(old(mutes))
      ensures mutes == Deactivate(old(mutes), {id}, now)
    {
      ok := exists i :: 0 <= i < |mutes| && mutes[i].id == id;
      if ok {
        var i :| 0 <= i < |mutes| && mutes[i].id == id;
        assert mutes[i] in mutes;
      }
      mutes := Deactivate(mutes, {id}, now);
    }

    /** The loop of `check_and_update_expired_mutes`: `_deactivate_mute` on each row's id. */
    method DeactivateEach(rows: seq<MuteRow>, now: int)
      requires Valid()
      modifies this`mutes
      ensures Valid()
      ensures mutes == Deactivate(old(mutes), IdSet(rows), now)
    {
      ghost var before := mutes;
      ghost var done: set<nat> := {};
      var k := 0;
      while k < |rows|
        invariant 0 <= k <= |rows|
        invariant Valid()
        invariant done == IdSet(rows[..k])
        invariant mutes == Deactivate(before, done, now)
      {
        var _ := DeactivateMute(rows[k].id, now);
        DeactivateTwice(before, done, rows[k].id, now);
        IdSetSnoc(rows[..k], rows[k]);
        assert rows[..k + 1] == rows[..k] + [rows[k]];
        done := done + {rows[k].id};
        k := k + 1;
      }
      assert rows[..k] == rows;
    }

    /** `check_and_update_expired_mutes`: the result is exactly the expired mutes, in table
        order and as they were before; each of them, and nothing else, is made inactive. */
    method CheckAndUpdateExpiredMutes(now: int) returns (expired: seq<MuteRow>)
      requires Valid()
      modifies this`mutes
      ensures Valid()
      ensures expired == Filter(old(mutes), (m: MuteRow) => IsExpired(m, now))
      ensures mutes == Swept(old(mutes), now)
    {
      expired := Filter(mutes, (m: MuteRow) => IsExpired(m, now));
      ghost var before := mutes;
      DeactivateEach(expired, now);
      DeactivateExpiredIsSweep(before, now);
    }
  }
}
