/** The invite-tracking store: which invite a new member used, one record per join through an
    invite, per-inviter statistics kept in step with those records, and the per-event summary
    of a member's tickets. The collections are in-memory tables; times are integer seconds. */
module InviteStore {
  import opened Common

  // ---------------------------------------------------------------------------
  // to_gmt8_time

  /** A datetime: wall-clock seconds and, when aware, its UTC offset in seconds. */
  datatype DateTime = DateTime(wall: int, offset: Option<int>)

  const Gmt8Offset: int := 8 * 3600

  /** The instant a datetime denotes, reading a naive one as UTC. */
  function Instant(d: DateTime): int {
    d.wall - (if d.offset.Some? then d.offset.value else 0)
  }

  /** `to_gmt8_time`: a naive datetime is taken as UTC, then shown at +08:00. */
  function ToGmt8(d: DateTime): (r: DateTime)
    ensures r.offset == Some(Gmt8Offset)
    ensures Instant(r) == Instant(d)
  {
    DateTime(Instant(d) + Gmt8Offset, Some(Gmt8Offset))
  }

  /** A naive time reads 8 hours later on the GMT+8 clock, and converting twice changes
      nothing more. */
  lemma ToGmt8Naive(wall: int)
    ensures ToGmt8(DateTime(wall, None)).wall == wall + 8 * 3600
    ensures ToGmt8(ToGmt8(DateTime(wall, None))) == ToGmt8(DateTime(wall, None))
  {
  }

  // ---------------------------------------------------------------------------
  // find_invite_by_usage

  /** What the guild reports for one invite code; either field may be missing. */
  datatype InviteUse = InviteUse(uses: Option<int>, inviterId: Option<int>)

  function UsesOf(u: InviteUse): int {
    if u.uses.Some? then u.uses.value else 0
  }

  /** The code was used by the join: it is new, or its use count went up. */
  predicate UsedBetween(before: map<string, InviteUse>, code: string, after: InviteUse) {
    code !in before || UsesOf(after) > UsesOf(before[code])
  }

  /** Entry i is used and none before it is. */
  predicate FirstUsedAt(before: map<string, InviteUse>, after: seq<(string, InviteUse)>, i: nat) {
    && i < |after|
    && UsedBetween(before, after[i].0, after[i].1)
    && forall j :: 0 <= j < i ==> !UsedBetween(before, after[j].0, after[j].1)
  }

  /** Where the scan of `find_invite_by_usage` stops. */
  function FirstUsed(before: map<string, InviteUse>, after: seq<(string, InviteUse)>): (k: Option<nat>)
    ensures k.None? <==> forall i :: 0 <= i < |after| ==> !UsedBetween(before, after[i].0, after[i].1)
    ensures k.Some? ==> FirstUsedAt(before, after, k.value)
  {
    if after == [] then None
    else if UsedBetween(before, after[0].0, after[0].1) then Some(0)
    else
      var k := FirstUsed(before, after[1..]);
      assert forall i :: 1 <= i < |after| ==> after[i] == after[1..][i - 1];
      if k.Some? then Some(k.value + 1) else None
  }

  /** `find_invite_by_usage`: the first code, in the order the guild lists them after the join,
      that is new or whose uses went up, with its inviter; None when there is none. */
  function FindInviteByUsage(before: map<string, InviteUse>, after: seq<(string, InviteUse)>): (r: Option<(string, Option<int>)>)
    ensures r.None? <==> forall i :: 0 <= i < |after| ==> !UsedBetween(before, after[i].0, after[i].1)
    ensures r.Some? ==> exists i: nat :: FirstUsedAt(before, after, i) && r.value == (after[i].0, after[i].1.inviterId)
  {
    var k := FirstUsed(before, after);
    if k.Some? then Some((after[k.value].0, after[k.value].1.inviterId)) else None
  }

  /** An invite that existed before with the same or fewer uses is never the answer, whatever
      comes after it. */
  lemma UnchangedInviteNotChosen(before: map<string, InviteUse>, after: seq<(string, InviteUse)>, k: nat)
    requires k < |after| && after[k].0 in before && UsesOf(after[k].1) <= UsesOf(before[after[k].0])
    requires NoDuplicates(Codes(after))
    ensures FindInviteByUsage(before, after) != Some((after[k].0, after[k].1.inviterId))
  {
    var f := FirstUsed(before, after);
    if f.Some? {
      assert f.value != k;
      assert Codes(after)[f.value] != Codes(after)[k];
    }
  }

  function Codes(after: seq<(string, InviteUse)>): (cs: seq<string>)
    ensures |cs| == |after| && forall i :: 0 <= i < |after| ==> cs[i] == after[i].0
  {
    if after == [] then [] else [after[0].0] + Codes(after[1..])
  }

  // ---------------------------------------------------------------------------
  // Records and inviter statistics

  /** One `InviteRecord`: a member who joined through an invite. */
  datatype InviteRecord = InviteRecord(
    code: string, guildId: int, inviterId: int, invitedUserId: int, invitedUserName: string,
    joinedAt: int, leftAt: Option<int>, isActive: bool)

  /** One `InviteStatistics` document. */
  datatype Stats = Stats(
    userId: int, guildId: int, total: int, active: int, left: int,
    firstInviteAt: Option<int>, lastInviteAt: Option<int>, createdAt: int)

  datatype Action = Join | Leave

  /** The statistics an inviter starts from when none are stored. */
  function FreshStats(inviterId: int, guildId: int, now: int): (s: Stats)
    ensures s.total == 0 && s.active == 0 && s.left == 0 && s.firstInviteAt.None?
  {
    Stats(inviterId, guildId, 0, 0, 0, None, None, now)
  }

  /** `_update_inviter_stats` on one document: a join counts one more invite, both in total and
      active, stamps the first invite once and the last invite always; a leave counts one more
      departure and one fewer active invite, never below zero. */
  function Updated(s: Stats, action: Action, now: int): (s': Stats)
    ensures action == Join ==> s'.total == s.total + 1 && s'.active == s.active + 1 && s'.left == s.left
    ensures action == Join ==> s'.lastInviteAt == Some(now) && s'.firstInviteAt == (if s.firstInviteAt.Some? then s.firstInviteAt else Some(now))
    ensures action == Leave ==> s'.total == s.total && s'.active == Max(0, s.active - 1) && s'.left == s.left + 1
    ensures action == Leave ==> s'.firstInviteAt == s.firstInviteAt && s'.lastInviteAt == s.lastInviteAt
    ensures s'.userId == s.userId && s'.guildId == s.guildId && s'.createdAt == s.createdAt
  {
    match action
    case Join =>
      s.(total := s.total + 1, active := s.active + 1,
         firstInviteAt := if s.firstInviteAt.None? then Some(now) else s.firstInviteAt,
         lastInviteAt := Some(now))
    case Leave =>
      s.(active := Max(0, s.active - 1), left := s.left + 1)
  }

  /** Neither action breaks 0 <= active <= total, and the first invite time never moves. */
  lemma UpdatedKeepsBounds(s: Stats, action: Action, now: int)
    requires 0 <= s.active <= s.total
    ensures 0 <= Updated(s, action, now).active <= Updated(s, action, now).total
    ensures s.firstInviteAt.Some? ==> Updated(s, action, now).firstInviteAt == s.firstInviteAt
  {
  }

  predicate ByInviter(r: InviteRecord, inviterId: int, guildId: int) {
    r.inviterId == inviterId && r.guildId == guildId
  }

  /** Records of joins through this inviter's invites. */
  function Invited(rs: seq<InviteRecord>, inviterId: int, guildId: int): (n: nat)
    ensures n <= |rs|
  {
    if rs == [] then 0
    else Invited(rs[..|rs| - 1], inviterId, guildId) + (if ByInviter(rs[|rs| - 1], inviterId, guildId) then 1 else 0)
  }

  /** Of those, the members still in the guild. */
  function StillActive(rs: seq<InviteRecord>, inviterId: int, guildId: int): (n: nat)
    ensures n <= Invited(rs, inviterId, guildId)
  {
    if rs == [] then 0
    else StillActive(rs[..|rs| - 1], inviterId, guildId)
         + (if ByInviter(rs[|rs| - 1], inviterId, guildId) && rs[|rs| - 1].isActive then 1 else 0)
  }

  lemma CountsAppend(rs: seq<InviteRecord>, r: InviteRecord, inviterId: int, guildId: int)
    ensures Invited(rs + [r], inviterId, guildId) == Invited(rs, inviterId, guildId) + (if ByInviter(r, inviterId, guildId) then 1 else 0)
    ensures StillActive(rs + [r], inviterId, guildId) == StillActive(rs, inviterId, guildId) + (if ByInviter(r, inviterId, guildId) && r.isActive then 1 else 0)
  {
    assert (rs + [r])[..|rs|] == rs;
  }

  /** Closing the active record k takes one member off its inviter's active count and changes
      no other count. */
  lemma {:induction false} CountsClose(rs: seq<InviteRecord>, k: nat, now: int, inviterId: int, guildId: int)
    requires k < |rs| && rs[k].isActive
    ensures Invited(rs[k := Closed(rs[k], now)], inviterId, guildId) == Invited(rs, inviterId, guildId)
    ensures StillActive(rs[k := Closed(rs[k], now)], inviterId, guildId)
            == StillActive(rs, inviterId, guildId) - (if ByInviter(rs[k], inviterId, guildId) then 1 else 0)
    decreases |rs|
  {
    var rs' := rs[k := Closed(rs[k], now)];
    var n := |rs| - 1;
    assert rs'[..n] == if k == n then rs[..n] else rs[..n][k := Closed(rs[k], now)];
    if k < n {
      CountsClose(rs[..n], k, now, inviterId, guildId);
    }
  }

  /** `record_invite_leave`'s change to the record: left now, no longer active. */
  function Closed(r: InviteRecord, now: int): (r': InviteRecord)
    ensures !r'.isActive && r'.leftAt == Some(now)
    ensures ByInviter(r', r.inviterId, r.guildId) && r'.invitedUserId == r.invitedUserId
  {
    r.(leftAt := Some(now), isActive := false)
  }

  /** Where the first active record of the member in the guild is. */
  function FirstActive(rs: seq<InviteRecord>, userId: int, guildId: int): (k: Option<nat>)
    ensures k.Some? ==> k.value < |rs| && rs[k.value].isActive && rs[k.value].invitedUserId == userId && rs[k.value].guildId == guildId
    ensures k.Some? ==> forall j :: 0 <= j < k.value ==> !(rs[j].isActive && rs[j].invitedUserId == userId && rs[j].guildId == guildId)
    ensures k.None? <==> forall j :: 0 <= j < |rs| ==> !(rs[j].isActive && rs[j].invitedUserId == userId && rs[j].guildId == guildId)
    decreases |rs|
  {
    if rs == [] then None
    else if rs[0].isActive && rs[0].invitedUserId == userId && rs[0].guildId == guildId then Some(0)
    else
      var k := FirstActive(rs[1..], userId, guildId);
      assert forall j :: 1 <= j < |rs| ==> rs[j] == rs[1..][j - 1];
      if k.Some? then Some(k.value + 1) else None
  }

  class InviteMongo {
    var records: seq<InviteRecord>
    var stats: map<(int, int), Stats>

    /** Each inviter's statistics count exactly the records of their invites: `total` all of
        them, `active` those still active, `left` the others; an inviter with no statistics has
        no records. */
    ghost predicate Valid()
      reads this
    {
      StoreOk(records, stats)
    }

    constructor ()
      ensures Valid() && records == [] && stats == map[]
    {
      records := [];
      stats := map[];
    }

    /** `_update_inviter_stats`: the inviter's statistics, created empty when missing, updated
        for the action; no other statistics change. */
    method UpdateInviterStats(inviterId: int, guildId: int, action: Action, now: int)
      modifies this`stats
      ensures stats == old(stats)[(inviterId, guildId) :=
        Updated(if (inviterId, guildId) in old(stats) then old(stats)[(inviterId, guildId)] else FreshStats(inviterId, guildId, now), action, now)]
    {
      var s := if (inviterId, guildId) in stats then stats[(inviterId, guildId)] else FreshStats(inviterId, guildId, now);
      stats := stats[(inviterId, guildId) := Updated(s, action, now)];
    }

    /** `record_invite_join`: a new active record, and the inviter's counts go up by one. */
    method RecordInviteJoin(code: string, guildId: int, inviterId: int, userId: int, userName: string, now: int)
      returns (r: InviteRecord)
      requires Valid()
      modifies this
      ensures Valid()
      ensures r == InviteRecord(code, guildId, inviterId, userId, userName, now, None, true)
      ensures records == old(records) + [r]
      ensures (inviterId, guildId) in stats
      ensures stats[(inviterId, guildId)].total == Invited(old(records), inviterId, guildId) + 1
      ensures stats[(inviterId, guildId)].active == StillActive(old(records), inviterId, guildId) + 1
    {
      r := InviteRecord(code, guildId, inviterId, userId, userName, now, None, true);
      JoinKeepsStore(records, stats, r, now);
      JoinedCounts(records, stats, inviterId, guildId, now);
      records := records + [r];
      UpdateInviterStats(inviterId, guildId, Join, now);
    }

    /** `record_invite_leave`: with no active record of the member nothing changes and the
        result is None; otherwise the first such record is closed and returned, and its
        inviter's active count goes down by one, never below zero since that record was
        counted. */
    method RecordInviteLeave(userId: int, guildId: int, now: int) returns (r: Option<InviteRecord>)
      requires Valid()
      modifies this
      ensures Valid()
      ensures FirstActive(old(records), userId, guildId).None? ==> r.None? && records == old(records) && stats == old(stats)
      ensures FirstActive(old(records), userId, guildId).Some? ==>
        var k := FirstActive(old(records), userId, guildId).value;
        && r == Some(Closed(old(records)[k], now))
        && records == old(records)[k := Closed(old(records)[k], now)]
        && var key := (old(records)[k].inviterId, guildId);
           key in old(stats) && key in stats
           && stats[key].active == old(stats)[key].active - 1 && stats[key].active >= 0
           && stats[key].total == old(stats)[key].total
    {
      var k := FirstActive(records, userId, guildId);
      if k.None? {
        return None;
      }
      var rec := records[k.value];
      assert (rec.inviterId, guildId) in stats;
      CountPositive(records, k.value);
      records := records[k.value := Closed(rec, now)];
      UpdateInviterStats(rec.inviterId, guildId, Leave, now);
      forall key | key in stats
        ensures stats[key].total == Invited(records, key.0, key.1)
        ensures stats[key].active == StillActive(records, key.0, key.1)
      {
        CountsClose(old(records), k.value, now, key.0, key.1);
      }
      r := Some(Closed(rec, now));
    }
  }

  /** An active record counts toward its inviter's active invites. */
  lemma {:induction false} CountPositive(rs: seq<InviteRecord>, k: nat)
    requires k < |rs| && rs[k].isActive
    ensures StillActive(rs, rs[k].inviterId, rs[k].guildId) >= 1
    decreases |rs|
  {
    if k < |rs| - 1 {
      CountPositive(rs[..|rs| - 1], k);
    }
  }

  /** The store invariant: each statistics document sits under its own key and holds the
      counts of the records, and every record's inviter has a document. */
  ghost predicate StoreOk(records: seq<InviteRecord>, stats: map<(int, int), Stats>) {
    && (forall key :: key in stats ==> stats[key].userId == key.0 && stats[key].guildId == key.1)
    && (forall key :: key in stats ==>
          && stats[key].total == Invited(records, key.0, key.1)
          && stats[key].active == StillActive(records, key.0, key.1)
          && stats[key].left == stats[key].total - stats[key].active)
    && (forall i :: 0 <= i < |records| ==> (records[i].inviterId, records[i].guildId) in stats)
  }

  /** The inviter's document after a join: the old one, or a fresh one, counted once more. */
  function JoinedStats(stats: map<(int, int), Stats>, inviterId: int, guildId: int, now: int): Stats {
    var key := (inviterId, guildId);
    Updated(if key in stats then stats[key] else FreshStats(inviterId, guildId, now), Join, now)
  }

  /** The inviter's document after a join counts one more invite and one more active member
      than the records held before it. */
  lemma JoinedCounts(records: seq<InviteRecord>, stats: map<(int, int), Stats>, inviterId: int, guildId: int, now: int)
    requires StoreOk(records, stats)
    ensures JoinedStats(stats, inviterId, guildId, now).total == Invited(records, inviterId, guildId) + 1
    ensures JoinedStats(stats, inviterId, guildId, now).active == StillActive(records, inviterId, guildId) + 1
    ensures JoinedStats(stats, inviterId, guildId, now).left == JoinedStats(stats, inviterId, guildId, now).total - JoinedStats(stats, inviterId, guildId, now).active
    ensures JoinedStats(stats, inviterId, guildId, now).userId == inviterId && JoinedStats(stats, inviterId, guildId, now).guildId == guildId
  {
    if (inviterId, guildId) !in stats {
      NoStatsNoRecords(records, stats, inviterId, guildId);
    }
  }

  /** One document of the store after a join agrees with the records after it. */
  lemma JoinKeepsEntry(records: seq<InviteRecord>, stats: map<(int, int), Stats>, r: InviteRecord, now: int, k: (int, int))
    requires StoreOk(records, stats) && r.isActive
    requires k in stats || k == (r.inviterId, r.guildId)
    ensures var d := stats[(r.inviterId, r.guildId) := JoinedStats(stats, r.inviterId, r.guildId, now)][k];
      && d.userId == k.0 && d.guildId == k.1
      && d.total == Invited(records + [r], k.0, k.1)
      && d.active == StillActive(records + [r], k.0, k.1)
      && d.left == d.total - d.active
  {
    CountsAppend(records, r, k.0, k.1);
    if k == (r.inviterId, r.guildId) {
      JoinedCounts(records, stats, r.inviterId, r.guildId, now);
    }
  }

  /** A join appended with its inviter's statistics updated keeps the invariant. */
  lemma JoinKeepsStore(records: seq<InviteRecord>, stats: map<(int, int), Stats>, r: InviteRecord, now: int)
    requires StoreOk(records, stats) && r.isActive
    ensures StoreOk(records + [r], stats[(r.inviterId, r.guildId) := JoinedStats(stats, r.inviterId, r.guildId, now)])
  {
    var stats' := stats[(r.inviterId, r.guildId) := JoinedStats(stats, r.inviterId, r.guildId, now)];
    forall k | k in stats'
      ensures stats'[k].userId == k.0 && stats'[k].guildId == k.1
      ensures stats'[k].total == Invited(records + [r], k.0, k.1)
      ensures stats'[k].active == StillActive(records + [r], k.0, k.1)
      ensures stats'[k].left == stats'[k].total - stats'[k].active
    {
      JoinKeepsEntry(records, stats, r, now, k);
    }
    forall i | 0 <= i < |records + [r]|
      ensures ((records + [r])[i].inviterId, (records + [r])[i].guildId) in stats'
    {
      if i < |records| {
        assert (records + [r])[i] == records[i];
      }
    }
  }

  /** Without statistics there is no record of that inviter. */
  lemma NoStatsNoRecords(rs: seq<InviteRecord>, stats: map<(int, int), Stats>, inviterId: int, guildId: int)
    requires forall i :: 0 <= i < |rs| ==> (rs[i].inviterId, rs[i].guildId) in stats
    requires (inviterId, guildId) !in stats
    ensures Invited(rs, inviterId, guildId) == 0
    decreases |rs|
  {
    if rs != [] {
      NoStatsNoRecords(rs[..|rs| - 1], stats, inviterId, guildId);
    }
  }

  /** Under the store invariant the leave clamp never fires: an inviter's active count never
      drops below zero because every leave closes a counted record. */
  lemma ActiveWithinTotal(m: InviteMongo, key: (int, int))
    requires m.Valid() && key in m.stats
    ensures 0 <= m.stats[key].active <= m.stats[key].total
    ensures m.stats[key].total == m.stats[key].active + m.stats[key].left
  {
  }

  // ---------------------------------------------------------------------------
  // get_user_current_event_tickets

  /** The name a ticket is grouped under: its event name, or the unknown-event label when the
      name is empty. */
  const UnknownEvent: string := "未知活動"

  function GroupKey(eventName: string): string {
    if eventName == "" then UnknownEvent else eventName
  }

  function Keys(es: seq<(string, nat)>): (ks: seq<string>)
    ensures |ks| == |es| && forall i :: 0 <= i < |es| ==> ks[i] == es[i].0
  {
    if es == [] then [] else [es[0].0] + Keys(es[1..])
  }

  function Counts(es: seq<(string, nat)>): (cs: seq<int>)
    ensures |cs| == |es|
  {
    if es == [] then [] else [es[0].1 as int] + Counts(es[1..])
  }

  /** The grouping dict after one more ticket under `key`: its count goes up, or it is added
      with count 1 at the end. */
  function Bump(es: seq<(string, nat)>, key: string): (es': seq<(string, nat)>)
    ensures Sum(Counts(es')) == Sum(Counts(es)) + 1
    ensures forall k :: k in Keys(es') <==> k in Keys(es) || k == key
    ensures NoDuplicates(Keys(es)) ==> NoDuplicates(Keys(es'))
  {
    if es == [] then [(key, 1)]
    else if es[0].0 == key then [(key, es[0].1 + 1)] + es[1..]
    else
      var rest := Bump(es[1..], key);
      assert Keys(es) == [es[0].0] + Keys(es[1..]);
      assert Keys([es[0]] + rest) == [es[0].0] + Keys(rest);
      assert NoDuplicates(Keys(es)) ==> NoDuplicates(Keys(es[1..])) && es[0].0 !in Keys(rest) by {
        if NoDuplicates(Keys(es)) {
          assert Keys(es)[1..] == Keys(es[1..]);
        }
      }
      [es[0]] + rest
  }

  /** The count recorded for `key`, 0 when absent. */
  function CountFor(es: seq<(string, nat)>, key: string): nat {
    if es == [] then 0 else if es[0].0 == key then es[0].1 else CountFor(es[1..], key)
  }

  lemma {:induction false} CountForBump(es: seq<(string, nat)>, key: string, k: string)
    ensures CountFor(Bump(es, key), k) == CountFor(es, k) + (if k == key then 1 else 0)
  {
    if es != [] && es[0].0 != key {
      CountForBump(es[1..], key, k);
    }
  }

  /** How many of the names group under `key`. */
  function NamesUnder(names: seq<string>, key: string): nat {
    if names == [] then 0
    else NamesUnder(names[..|names| - 1], key) + (if GroupKey(names[|names| - 1]) == key then 1 else 0)
  }

  /** The grouping of `names`, built in order. */
  function Grouped(names: seq<string>): (es: seq<(string, nat)>)
    ensures Sum(Counts(es)) == |names|
    ensures NoDuplicates(Keys(es))
  {
    if names == [] then [] else Bump(Grouped(names[..|names| - 1]), GroupKey(names[|names| - 1]))
  }

  /** Each event's count is the number of tickets grouped under it. */
  lemma {:induction false} GroupedCounts(names: seq<string>, key: string)
    ensures CountFor(Grouped(names), key) == NamesUnder(names, key)
    decreases |names|
  {
    if names != [] {
      GroupedCounts(names[..|names| - 1], key);
      CountForBump(Grouped(names[..|names| - 1]), GroupKey(names[|names| - 1]), key);
    }
  }

  /** A ticket's event name, possibly missing. */
  datatype Ticket = Ticket(eventName: Option<string>)

  predicate InEvents(t: Ticket, current: seq<string>) {
    t.eventName.Some? && t.eventName.value in current
  }

  function NamesOf(ts: seq<Ticket>): (ns: seq<string>)
    requires forall i :: 0 <= i < |ts| ==> ts[i].eventName.Some?
    ensures |ns| == |ts|
  {
    if ts == [] then [] else [ts[0].eventName.value] + NamesOf(ts[1..])
  }

  function CurrentTickets(all: seq<Ticket>, current: seq<string>): (r: seq<Ticket>)
    ensures forall i :: 0 <= i < |r| ==> InEvents(r[i], current)
    ensures |r| == CountWhere(all, (t: Ticket) => InEvents(t, current))
  {
    Filter(all, (t: Ticket) => InEvents(t, current))
  }

  /** `get_user_current_event_tickets`: the tickets of the current events, counted per event in
      order of first appearance. Without a ticket system the summary is empty. */
  method CurrentEventTickets(all: seq<Ticket>, current: seq<string>, ticketSystem: bool)
    returns (total: nat, events: seq<(string, nat)>)
    ensures !ticketSystem ==> total == 0 && events == []
    ensures ticketSystem ==> total == |CurrentTickets(all, current)|
    ensures ticketSystem ==> events == Grouped(NamesOf(CurrentTickets(all, current)))
    ensures Sum(Counts(events)) == total && NoDuplicates(Keys(events))
  {
    if !ticketSystem {
      return 0, [];
    }
    var ts := CurrentTickets(all, current);
    events := GroupByEvent(NamesOf(ts));
    total := |ts|;
  }

  /** The grouping loop of `get_user_current_event_tickets`. */
  method GroupByEvent(names: seq<string>) returns (events: seq<(string, nat)>)
    ensures events == Grouped(names)
  {
    events := [];
    var i := 0;
    while i < |names|
      invariant i <= |names|
      invariant events == Grouped(names[..i])
    {
      assert names[..i + 1][..i] == names[..i];
      events := Bump(events, GroupKey(names[i]));
      i := i + 1;
    }
    assert names[..|names|] == names;
  }
}
