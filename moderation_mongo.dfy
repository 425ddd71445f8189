/** The document-store variant of the moderation store: user, violation and mute documents
    held in insertion order (the order a query without a sort returns them in), with the same
    mute ladder as the SQLite store. Times are integer seconds. */
module ModerationDocs {
  import opened Common
  import opened MuteLadder

  datatype UserDoc = UserDoc(username: Option<string>, firstSeen: int, lastViolation: Option<int>)

  datatype ViolationDoc = ViolationDoc(
    id: nat, userId: int, guildId: int, content: Option<string>,
    categories: seq<string>, details: Option<string>, createdAt: int)

  datatype MuteDoc = MuteDoc(
    id: nat, userId: int, guildId: int, violationCount: int, durationMinutes: Option<int>,
    startedAt: int, expiresAt: Option<int>, isActive: bool, deactivatedAt: Option<int>)

  /** What `get_moderation_statistics` reports for a guild over a number of days. */
  datatype Statistics = Statistics(
    totalViolations: nat, totalMutes: nat, activeMutes: nat,
    categoryCounts: map<string, nat>, periodDays: int)

  /** `get_or_create` followed by the refresh: a missing user is created with default fields and
      the violation time; an existing one keeps every field but the violation time. */
  function Touched(users: map<(int, int), UserDoc>, key: (int, int), now: int): (u: map<(int, int), UserDoc>)
    ensures u.Keys == users.Keys + {key}
    ensures u[key].lastViolation == Some(now)
    ensures key in users ==> u[key].username == users[key].username && u[key].firstSeen == users[key].firstSeen
    ensures forall k :: k in users && k != key ==> u[k] == users[k]
  {
    if key in users then users[key := users[key].(lastViolation := Some(now))]
    else users[key := UserDoc(None, now, Some(now))]
  }

  predicate ActiveFor(m: MuteDoc, user: int, guild: int) {
    m.isActive && m.userId == user && m.guildId == guild
  }

  /** The position `.first()` returns: the earliest active mute of the user in the guild. */
  function FirstActive(mutes: seq<MuteDoc>, user: int, guild: int): (r: Option<nat>)
    ensures r.None? <==> forall k :: 0 <= k < |mutes| ==> !ActiveFor(mutes[k], user, guild)
    ensures r.Some? ==> r.value < |mutes| && ActiveFor(mutes[r.value], user, guild)
    ensures r.Some? ==> forall k :: 0 <= k < r.value ==> !ActiveFor(mutes[k], user, guild)
  {
    if mutes == [] then None
    else if ActiveFor(mutes[0], user, guild) then Some(0)
    else
      var rest := FirstActive(mutes[1..], user, guild);
      if rest.None? then None else Some(rest.value + 1)
  }

  predicate IsExpired(m: MuteDoc, now: int) {
    m.isActive && m.expiresAt.Some? && m.expiresAt.value <= now
  }

  function ExpiredAt(now: int): MuteDoc -> bool {
    (m: MuteDoc) => IsExpired(m, now)
  }

  function Closed(m: MuteDoc, now: int): MuteDoc {
    m.(isActive := false, deactivatedAt := Some(now))
  }

  /** One mute after the sweep: closed at `now` when expired, otherwise as it was. */
  function SweptOne(m: MuteDoc, now: int): MuteDoc {
    if IsExpired(m, now) then Closed(m, now) else m
  }

  function Swept(mutes: seq<MuteDoc>, now: int): (r: seq<MuteDoc>)
    ensures |r| == |mutes|
  {
    seq(|mutes|, i requires 0 <= i < |mutes| => SweptOne(mutes[i], now))
  }

  /** After the sweep no expired mute is left, and every mute it closed carries `now`. */
  lemma SweptClosesExpired(mutes: seq<MuteDoc>, now: int)
    ensures forall i :: 0 <= i < |mutes| ==> !IsExpired(Swept(mutes, now)[i], now)
    ensures forall i :: 0 <= i < |mutes| && IsExpired(mutes[i], now) ==>
              !Swept(mutes, now)[i].isActive && Swept(mutes, now)[i].deactivatedAt == Some(now)
    ensures Swept(Swept(mutes, now), now) == Swept(mutes, now)
  {
  }

  lemma ExpiredSnoc(s: seq<MuteDoc>, i: nat, now: int)
    requires i < |s|
    ensures Filter(s[..i + 1], ExpiredAt(now))
            == Filter(s[..i], ExpiredAt(now)) + (if IsExpired(s[i], now) then [s[i]] else [])
  {
    assert s[..i + 1] == s[..i] + [s[i]];
    FilterSnoc(s[..i], s[i], ExpiredAt(now));
    assert ExpiredAt(now)(s[i]) == IsExpired(s[i], now);
  }

  /** The loop state of the expired sweep: the first i mutes are swept, the rest are as they
      were, and the expired ones among the first i are reported. */
  ghost predicate SweptUpTo(before: seq<MuteDoc>, cur: seq<MuteDoc>, expired: seq<MuteDoc>, i: nat, now: int) {
    && i <= |before| && |cur| == |before|
    && (forall j :: 0 <= j < |cur| ==> cur[j] == if j < i then SweptOne(before[j], now) else before[j])
    && expired == Filter(before[..i], ExpiredAt(now))
  }

  lemma SweepStart(before: seq<MuteDoc>, now: int)
    ensures SweptUpTo(before, before, [], 0, now)
  {
    assert before[..0] == [];
  }

  lemma SweepDone(before: seq<MuteDoc>, cur: seq<MuteDoc>, expired: seq<MuteDoc>, now: int)
    requires SweptUpTo(before, cur, expired, |before|, now)
    ensures cur == Swept(before, now) && expired == Filter(before, ExpiredAt(now))
  {
    assert before[..|before|] == before;
  }

  lemma SweepStep(before: seq<MuteDoc>, cur: seq<MuteDoc>, expired: seq<MuteDoc>, i: nat, now: int)
    requires SweptUpTo(before, cur, expired, i, now) && i < |before|
    ensures cur[i] == before[i]
    ensures IsExpired(cur[i], now) ==> SweptUpTo(before, cur[i := Closed(cur[i], now)], expired + [cur[i]], i + 1, now)
    ensures !IsExpired(cur[i], now) ==> SweptUpTo(before, cur, expired, i + 1, now)
  {
    ExpiredSnoc(before, i, now);
  }

  // ---------------------------------------------------------------------------
  // Category counts

  /** Occurrences of `c` in a list of names. */
  function Occ(s: seq<string>, c: string): nat {
    CountWhere(s, (x: string) => x == c)
  }

  /** Every category of every violation, violation by violation. */
  function AllCategories(window: seq<ViolationDoc>): seq<string> {
    if window == [] then [] else AllCategories(window[..|window| - 1]) + window[|window| - 1].categories
  }

  /** A count map holds exactly the names of `s`, each with its number of occurrences. */
  ghost predicate Tallies(counts: map<string, nat>, s: seq<string>) {
    forall c :: (c in counts <==> c in s) && (c in counts ==> counts[c] == Occ(s, c))
  }

  lemma OccPositive(s: seq<string>, c: string)
    ensures Occ(s, c) > 0 <==> c in s
  {
    if c in s {
      var i :| 0 <= i < |s| && s[i] == c;
    }
  }

  /** `counts[x] = counts.get(x, 0) + 1` tallies one more name. */
  lemma TallyStep(counts: map<string, nat>, s: seq<string>, x: string)
    requires Tallies(counts, s)
    ensures Tallies(counts[x := (if x in counts then counts[x] else 0) + 1], s + [x])
  {
    forall c
      ensures Occ(s + [x], c) == Occ(s, c) + (if c == x then 1 else 0)
      ensures c in s + [x] <==> c in s || c == x
    {
      CountWhereAppend(s, [x], (y: string) => y == c);
      assert [x][1..] == [];
    }
    forall c
      ensures c in counts <==> Occ(s, c) > 0
    {
      OccPositive(s, c);
    }
  }

  /** The instant `days` days before `now`. */
  function Cutoff(now: int, days: int): int {
    now - days * 86400
  }

  /** The violations of one guild from the cutoff on. */
  function InWindow(guild: int, cutoff: int): ViolationDoc -> bool {
    (v: ViolationDoc) => v.guildId == guild && v.createdAt >= cutoff
  }

  function CreatedSince(cutoff: int): ViolationDoc -> bool {
    (v: ViolationDoc) => v.createdAt >= cutoff
  }

  function CreatedBefore(cutoff: int): ViolationDoc -> bool {
    (v: ViolationDoc) => v.createdAt < cutoff
  }

  class ModerationStore {
    var users: map<(int, int), UserDoc>
    var violations: seq<ViolationDoc>
    var mutes: seq<MuteDoc>
    var nextId: nat

    constructor ()
      ensures users == map[] && violations == [] && mutes == [] && nextId == 1
    {
      users, violations, mutes, nextId := map[], [], [], 1;
    }

    function ViolationCount(user: int, guild: int): (n: nat)
      reads this
      ensures n <= |violations|
      ensures n == 0 <==> forall i :: 0 <= i < |violations| ==> !(violations[i].userId == user && violations[i].guildId == guild)
    {
      CountWhere(violations, (v: ViolationDoc) => v.userId == user && v.guildId == guild)
    }

    /** `add_violation`: the user document is created or refreshed, one violation document is
        appended (a missing category list stored as empty), and the user's count goes up by one. */
    method AddViolation(user: int, guild: int, content: Option<string>, categories: seq<string>,
                        details: Option<string>, now: int)
      returns (id: nat)
      modifies this
      ensures id == old(nextId) && nextId == id + 1
      ensures users == Touched(old(users), (user, guild), now)
      ensures violations == old(violations) + [ViolationDoc(id, user, guild, content, categories, details, now)]
      ensures mutes == old(mutes)
      ensures ViolationCount(user, guild) == old(ViolationCount(user, guild)) + 1
    {
      users := Touched(users, (user, guild), now);
      id := nextId;
      nextId := nextId + 1;
      var doc := ViolationDoc(id, user, guild, content, categories, details, now);
      CountWhereAppend(violations, [doc], (v: ViolationDoc) => v.userId == user && v.guildId == guild);
      assert [doc][1..] == [];
      violations := violations + [doc];
    }

    /** `add_mute`: one active mute document started now, with the ladder's window. */
    method AddMute(user: int, guild: int, violationCount: int, duration: Option<int>, now: int)
      returns (id: nat)
      modifies this
      ensures id == old(nextId) && nextId == id + 1
      ensures mutes == old(mutes) + [MuteDoc(id, user, guild, violationCount,
                                             Window(violationCount, duration, now).durationMinutes, now,
                                             Window(violationCount, duration, now).expiresAt, true, None)]
      ensures violations == old(violations) && users == old(users)
    {
      var w := Window(violationCount, duration, now);
      id := nextId;
      nextId := nextId + 1;
      mutes := mutes + [MuteDoc(id, user, guild, violationCount, w.durationMinutes, now, w.expiresAt, true, None)];
    }

    /** `get_active_mute`: the first active mute of the user in the guild, if any. */
    function GetActiveMute(user: int, guild: int): (m: Option<MuteDoc>)
      reads this
      ensures m.None? <==> forall k :: 0 <= k < |mutes| ==> !ActiveFor(mutes[k], user, guild)
      ensures m.Some? ==> m.value in mutes && ActiveFor(m.value, user, guild)
    {
      var i := FirstActive(mutes, user, guild);
      if i.None? then None else Some(mutes[i.value])
    }

    /** `deactivate_mute`: true exactly when the user has an active mute in the guild; then the
        first one is closed at `now` and no other document changes. */
    method DeactivateMute(user: int, guild: int, now: int) returns (ok: bool)
      modifies this`mutes
      ensures ok <==> exists k :: 0 <= k < |old(mutes)| && ActiveFor(old(mutes)[k], user, guild)
      ensures var i := FirstActive(old(mutes), user, guild);
              mutes == if i.None? then old(mutes) else old(mutes)[i.value := Closed(old(mutes)[i.value], now)]
    {
      var i := FirstActive(mutes, user, guild);
      if i.None? {
        return false;
      }
      mutes := mutes[i.value := Closed(mutes[i.value], now)];
      ok := true;
    }

    /** The expired sweep: in document order, each active mute whose expiry has passed is
        reported as it was and then closed at `now`; the report is exactly the expired mutes. */
    method CheckAndUpdateExpiredMutes(now: int) returns (expired: seq<MuteDoc>)
      modifies this`mutes
      ensures expired == Filter(old(mutes), ExpiredAt(now))
      ensures mutes == Swept(old(mutes), now)
    {
      ghost var before := mutes;
      expired := [];
      var i := 0;
      SweepStart(before, now);
      while i < |mutes|
        invariant SweptUpTo(before, mutes, expired, i, now)
      {
        SweepStep(before, mutes, expired, i, now);
        if IsExpired(mutes[i], now) {
          expired := expired + [mutes[i]];
          mutes := mutes[i := Closed(mutes[i], now)];
        }
        i := i + 1;
      }
      assert i == |before|;
      SweepDone(before, mutes, expired, now);
    }

    /** The category tally of `get_moderation_statistics`: every category occurrence across the
        window's violations is counted once. */
    static method CategoryCounts(window: seq<ViolationDoc>) returns (counts: map<string, nat>)
      ensures Tallies(counts, AllCategories(window))
    {
      counts := map[];
      var i := 0;
      while i < |window|
        invariant 0 <= i <= |window|
        invariant Tallies(counts, AllCategories(window[..i]))
      {
        var cats := window[i].categories;
        assert window[..i + 1][..i] == window[..i];
        var j := 0;
        assert AllCategories(window[..i]) + cats[..0] == AllCategories(window[..i]);
        while j < |cats|
          invariant 0 <= j <= |cats|
          invariant Tallies(counts, AllCategories(window[..i]) + cats[..j])
        {
          TallyStep(counts, AllCategories(window[..i]) + cats[..j], cats[j]);
          assert cats[..j + 1] == cats[..j] + [cats[j]];
          assert AllCategories(window[..i]) + cats[..j + 1] == AllCategories(window[..i]) + cats[..j] + [cats[j]];
          counts := counts[cats[j] := (if cats[j] in counts then counts[cats[j]] else 0) + 1];
          j := j + 1;
        }
        assert cats[..j] == cats;
        i := i + 1;
      }
      assert window[..i] == window;
    }

    /** `get_moderation_statistics` for the `days` before `now`. */
    method GetModerationStatistics(guild: int, days: int, now: int) returns (st: Statistics)
      ensures var cutoff := Cutoff(now, days);
        && st.totalViolations == CountWhere(violations, InWindow(guild, cutoff))
        && st.totalMutes == CountWhere(mutes, (m: MuteDoc) => m.guildId == guild && m.startedAt >= cutoff)
        && st.activeMutes == CountWhere(mutes, (m: MuteDoc) => m.guildId == guild && m.isActive)
        && Tallies(st.categoryCounts, AllCategories(Filter(violations, InWindow(guild, cutoff))))
        && st.periodDays == days
    {
      var cutoff := Cutoff(now, days);
      var window := Filter(violations, InWindow(guild, cutoff));
      var counts := CategoryCounts(window);
      st := Statistics(
        CountWhere(violations, InWindow(guild, cutoff)),
        CountWhere(mutes, (m: MuteDoc) => m.guildId == guild && m.startedAt >= cutoff),
        CountWhere(mutes, (m: MuteDoc) => m.guildId == guild && m.isActive),
        counts, days);
    }

    /** `cleanup_old_violations`: the violations created before the cutoff are deleted and
        counted; the kept ones stay in order, and kept plus deleted is the old total. */
    method CleanupOldViolations(days: int, now: int) returns (deleted: nat)
      modifies this`violations
      ensures var cutoff := Cutoff(now, days);
        && violations == Filter(old(violations), CreatedSince(cutoff))
        && deleted == CountWhere(old(violations), CreatedBefore(cutoff))
        && deleted + |violations| == |old(violations)|
    {
      var cutoff := Cutoff(now, days);
      var kept := Filter(violations, CreatedSince(cutoff));
      deleted := CountWhere(violations, CreatedBefore(cutoff));
      CountSplit(violations, cutoff);
      violations := kept;
    }
  }

  /** Every document is either before the cutoff or not. */
  lemma {:induction false} CountSplit(s: seq<ViolationDoc>, cutoff: int)
    ensures CountWhere(s, CreatedBefore(cutoff))
            + CountWhere(s, CreatedSince(cutoff)) == |s|
  {
    if s != [] {
      CountSplit(s[1..], cutoff);
    }
  }
}
