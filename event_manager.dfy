/** Invite events: the events file is re-read only when it changed, the events running today
    are the enabled ones whose date range holds today, every invite earns each reward of each
    qualifying invite-reward event, and a ticket reward is announced only after it was awarded.
    Dates are day numbers, `None` for a date that is missing or not a `%Y-%m-%d` date; the
    file's modification time is an integer. */
module InviteEvents {
  import opened Common

  datatype Reward = Reward(kind: Option<string>, amount: Option<int>, ticketType: Option<string>, description: Option<string>)

  /** One entry of `active_events` in the events file. */
  datatype Event = Event(
    id: string, name: string, enabled: bool, kind: Option<string>, startDay: Option<int>, endDay: Option<int>,
    rewards: seq<Reward>, inviteCount: Option<int>, onReward: Option<bool>)

  /** One reward owed for one invite. */
  datatype RewardEntry = RewardEntry(event: Event, reward: Reward, inviterId: int, guildId: int, invitedUserId: int, invitedUserName: string)

  /** The file must be read again: nothing was loaded yet (a zero time counts as nothing), or
      the file is newer than the last load. */
  predicate NeedsReload(lastLoaded: Option<int>, mtime: int) {
    lastLoaded.None? || lastLoaded.value == 0 || mtime > lastLoaded.value
  }

  /** After a load at a non-zero time m, the file is read again exactly when its time moves
      past m. */
  lemma ReloadOnlyWhenNewer(m: int, mtime: int)
    requires m != 0
    ensures NeedsReload(Some(m), mtime) <==> mtime > m
  {
  }

  /** An event whose dates can be read: both are present and well formed. */
  predicate DatesReadable(e: Event) {
    e.startDay.Some? && e.endDay.Some?
  }

  /** Every enabled event has readable dates (a disabled one is skipped before its dates are
      read). */
  predicate EnabledDatesReadable(es: seq<Event>) {
    forall i :: 0 <= i < |es| ==> es[i].enabled ==> DatesReadable(es[i])
  }

  /** An event running on `today`: enabled and start <= today <= end. */
  predicate RunningOn(e: Event, today: int) {
    e.enabled && DatesReadable(e) && e.startDay.value <= today <= e.endDay.value
  }

  /** The running events, in file order. */
  function RunningEvents(es: seq<Event>, today: int): (r: seq<Event>)
    ensures |r| <= |es|
    ensures forall i :: 0 <= i < |r| ==> r[i] in es && RunningOn(r[i], today)
    decreases |es|
  {
    if es == [] then []
    else
      var rest := RunningEvents(es[..|es| - 1], today);
      assert forall e :: e in es[..|es| - 1] ==> e in es;
      if RunningOn(es[|es| - 1], today) then rest + [es[|es| - 1]] else rest
  }

  /** Every running event is kept. */
  lemma {:induction false} RunningEventsComplete(es: seq<Event>, today: int, e: Event)
    requires e in es && RunningOn(e, today)
    ensures e in RunningEvents(es, today)
    decreases |es|
  {
    if e != es[|es| - 1] {
      assert e in es[..|es| - 1] by {
        var i :| 0 <= i < |es| && es[i] == e;
        assert es[..|es| - 1][i] == e;
      }
      RunningEventsComplete(es[..|es| - 1], today, e);
    }
  }

  /** `_check_event_conditions`: each invite is rewarded on its own, so an event qualifies when
      it asks for at most one invite (one when unstated). */
  predicate ConditionsMet(e: Event) {
    (if e.inviteCount.Some? then e.inviteCount.value else 1) <= 1
  }

  predicate Qualifies(e: Event) {
    e.kind == Some("invite_reward") && ConditionsMet(e)
  }

  function EntriesFor(e: Event, rewards: seq<Reward>, inviterId: int, guildId: int, userId: int, userName: string): (r: seq<RewardEntry>)
    ensures |r| == |rewards|
    ensures forall i :: 0 <= i < |r| ==> r[i] == RewardEntry(e, rewards[i], inviterId, guildId, userId, userName)
  {
    if rewards == [] then []
    else EntriesFor(e, rewards[..|rewards| - 1], inviterId, guildId, userId, userName)
         + [RewardEntry(e, rewards[|rewards| - 1], inviterId, guildId, userId, userName)]
  }

  /** The rewards owed for one invite: every reward of every qualifying event, event by event
      and reward by reward. */
  function RewardEntries(events: seq<Event>, inviterId: int, guildId: int, userId: int, userName: string): seq<RewardEntry>
    decreases |events|
  {
    if events == [] then []
    else
      var e := events[|events| - 1];
      RewardEntries(events[..|events| - 1], inviterId, guildId, userId, userName)
      + (if Qualifies(e) then EntriesFor(e, e.rewards, inviterId, guildId, userId, userName) else [])
  }

  lemma RewardEntriesSnoc(events: seq<Event>, i: nat, inviterId: int, guildId: int, userId: int, userName: string)
    requires i < |events|
    ensures RewardEntries(events[..i + 1], inviterId, guildId, userId, userName)
      == RewardEntries(events[..i], inviterId, guildId, userId, userName)
       + (if Qualifies(events[i]) then EntriesFor(events[i], events[i].rewards, inviterId, guildId, userId, userName) else [])
  {
    assert events[..i + 1][..i] == events[..i];
  }

  /** The inner loop of `check_invite_rewards`: one entry per reward of `e`, in order. */
  method AppendRewards(entries0: seq<RewardEntry>, e: Event, inviterId: int, guildId: int, userId: int, userName: string)
    returns (entries: seq<RewardEntry>)
    ensures entries == entries0 + EntriesFor(e, e.rewards, inviterId, guildId, userId, userName)
  {
    entries := entries0;
    var j := 0;
    while j < |e.rewards|
      invariant j <= |e.rewards|
      invariant entries == entries0 + EntriesFor(e, e.rewards[..j], inviterId, guildId, userId, userName)
    {
      assert e.rewards[..j + 1][..j] == e.rewards[..j];
      entries := entries + [RewardEntry(e, e.rewards[j], inviterId, guildId, userId, userName)];
      j := j + 1;
    }
    assert e.rewards[..j] == e.rewards;
  }

  /** An entry is owed exactly for a reward of a qualifying event among `events`. */
  lemma {:induction false} RewardEntriesExact(events: seq<Event>, inviterId: int, guildId: int, userId: int, userName: string, x: RewardEntry)
    ensures x in RewardEntries(events, inviterId, guildId, userId, userName) <==>
      && x.event in events && Qualifies(x.event) && x.reward in x.event.rewards
      && x.inviterId == inviterId && x.guildId == guildId && x.invitedUserId == userId && x.invitedUserName == userName
    decreases |events|
  {
    if events != [] {
      var front := events[..|events| - 1];
      var e := events[|events| - 1];
      RewardEntriesExact(front, inviterId, guildId, userId, userName, x);
      assert events == front + [e];
      var mine := if Qualifies(e) then EntriesFor(e, e.rewards, inviterId, guildId, userId, userName) else [];
      if x in mine {
        var i :| 0 <= i < |mine| && mine[i] == x;
        assert x.reward == e.rewards[i];
      }
      if x.event == e && Qualifies(e) && x.reward in e.rewards && x.inviterId == inviterId && x.guildId == guildId
         && x.invitedUserId == userId && x.invitedUserName == userName {
        var i :| 0 <= i < |e.rewards| && e.rewards[i] == x.reward;
        assert mine[i] == x;
      }
    }
  }

  /** How `process_reward` ended. */
  datatype Failure = NoTicketSystem | AwardFailed | Raised

  datatype RewardResult =
    | Awarded(amount: int, description: string)
    | NotAwarded(kind: string, failure: Failure)

  /** `process_reward`: None for a reward that is not a ticket; otherwise the award's outcome.
      A reward without a type or, once awarded, without an amount raises inside the handler and
      is reported as a failure of type "unknown"/"ticket". */
  function ProcessReward(reward: Reward, ticketSystem: bool, awardOk: bool): (r: Option<RewardResult>)
    ensures r.Some? && r.value.Awarded? ==> reward.kind == Some("ticket") && ticketSystem && awardOk && reward.amount.Some?
    ensures reward.kind.Some? && reward.kind != Some("ticket") ==> r.None?
  {
    if reward.kind.None? then Some(NotAwarded("unknown", Raised))
    else if reward.kind.value != "ticket" then None
    else if !ticketSystem then Some(NotAwarded("ticket", NoTicketSystem))
    else if !awardOk then Some(NotAwarded("ticket", AwardFailed))
    else if reward.amount.None? then Some(NotAwarded("ticket", Raised))
    else Some(Awarded(reward.amount.value, if reward.description.Some? then reward.description.value else "邀請票券"))
  }

  /** `get_reward_notification_message`: a text only for a successful result, an event whose
      `on_reward` is not false, and a ticket reward. */
  function Notification(event: Event, reward: Reward, userName: string, result: Option<RewardResult>): (msg: Option<string>)
    requires reward.kind == Some("ticket") ==> reward.amount.Some?
    ensures msg.Some? <==> result.Some? && result.value.Awarded? && event.onReward != Some(false) && reward.kind == Some("ticket")
    ensures msg.Some? ==> Contains(msg.value, userName) && Contains(msg.value, event.name)
  {
    if result.None? || !result.value.Awarded? then None
    else if event.onReward == Some(false) then None
    else if reward.kind == Some("ticket") then
      var head := "🎉 恭喜！你邀請了 **" + userName;
      var mid := "** 加入伺服器！\n🎫 獲得 **" + IntToString(reward.amount.value) + "** 張 "
                 + (if reward.description.Some? then reward.description.value else "票券") + "\n📅 活動：";
      var text := head + mid + event.name;
      assert OccursAt(text, userName, |"🎉 恭喜！你邀請了 **"|);
      ContainsAt(text, userName, |"🎉 恭喜！你邀請了 **"|);
      assert OccursAt(text, event.name, |head + mid|);
      ContainsAt(text, event.name, |head + mid|);
      Some(text)
    else None
  }

  /** An invite is announced only for a ticket that was actually awarded. */
  lemma AnnouncedOnlyWhenAwarded(event: Event, reward: Reward, userName: string, ticketSystem: bool, awardOk: bool)
    requires reward.kind == Some("ticket") ==> reward.amount.Some?
    ensures Notification(event, reward, userName, ProcessReward(reward, ticketSystem, awardOk)).Some? <==>
      reward.kind == Some("ticket") && ticketSystem && awardOk && event.onReward != Some(false)
  {
  }

  /** The scan of `get_active_events` over the loaded events: enabled events are kept when
      their date range holds `today`; the first enabled event whose dates cannot be parsed
      raises (`None`). */
  method ScanRunning(es: seq<Event>, today: int) returns (active: Option<seq<Event>>)
    ensures EnabledDatesReadable(es) ==> active == Some(RunningEvents(es, today))
    ensures !EnabledDatesReadable(es) ==> active.None?
  {
    var running := [];
    var i := 0;
    while i < |es|
      invariant i <= |es|
      invariant running == RunningEvents(es[..i], today)
      invariant EnabledDatesReadable(es[..i])
    {
      assert es[..i + 1][..i] == es[..i];
      if es[i].enabled {
        if !DatesReadable(es[i]) {
          return None;
        }
        if es[i].startDay.value <= today <= es[i].endDay.value {
          running := running + [es[i]];
        }
      }
      assert forall j :: 0 <= j < i ==> es[..i + 1][j] == es[..i][j];
      i := i + 1;
    }
    assert es[..|es|] == es;
    active := Some(running);
  }

  class EventManager {
    /** The parsed `active_events` list and the modification time it was read at. */
    var events: seq<Event>
    var lastLoaded: Option<int>

    constructor ()
      ensures events == [] && lastLoaded.None?
    {
      events := [];
      lastLoaded := None;
    }

    /** `load_events_config`: false without a file or when it cannot be parsed (keeping what
        was loaded); true without reading when the file is not newer than the last load; else
        the file's events replace the old ones. */
    method LoadEventsConfig(fileExists: bool, mtime: int, parsed: Option<seq<Event>>) returns (ok: bool)
      modifies this
      ensures ok <==> fileExists && (!NeedsReload(old(lastLoaded), mtime) || parsed.Some?)
      ensures fileExists && NeedsReload(old(lastLoaded), mtime) && parsed.Some? ==>
        events == parsed.value && lastLoaded == Some(mtime)
      ensures !(fileExists && NeedsReload(old(lastLoaded), mtime) && parsed.Some?) ==>
        events == old(events) && lastLoaded == old(lastLoaded)
    {
      if !fileExists {
        return false;
      }
      if !NeedsReload(lastLoaded, mtime) {
        return true;
      }
      if parsed.None? {
        return false;
      }
      events := parsed.value;
      lastLoaded := Some(mtime);
      ok := true;
    }

    /** `get_active_events`: the events running `today` after a load; [] when the load fails;
        `None` when an enabled event's date cannot be parsed, which raises out of the scan. */
    method GetActiveEvents(fileExists: bool, mtime: int, parsed: Option<seq<Event>>, today: int)
      returns (active: Option<seq<Event>>)
      modifies this
      ensures fileExists && NeedsReload(old(lastLoaded), mtime) && parsed.Some? ==>
        events == parsed.value && lastLoaded == Some(mtime)
      ensures !(fileExists && NeedsReload(old(lastLoaded), mtime) && parsed.Some?) ==>
        events == old(events) && lastLoaded == old(lastLoaded)
      ensures fileExists && (!NeedsReload(old(lastLoaded), mtime) || parsed.Some?) ==>
        && (EnabledDatesReadable(events) ==> active == Some(RunningEvents(events, today)))
        && (!EnabledDatesReadable(events) ==> active.None?)
      ensures !(fileExists && (!NeedsReload(old(lastLoaded), mtime) || parsed.Some?)) ==> active == Some([])
    {
      var ok := LoadEventsConfig(fileExists, mtime, parsed);
      if !ok {
        return Some([]);
      }
      active := ScanRunning(events, today);
    }

    /** `check_invite_rewards`: nothing when event checking is off (the file is not even
        read) or no event is running; `None` when reading the events raised (an enabled event
        with a date that cannot be parsed); otherwise the rewards owed by the running events. */
    method CheckInviteRewards(checkEnabled: bool, fileExists: bool, mtime: int, parsed: Option<seq<Event>>, today: int,
                              inviterId: int, guildId: int, userId: int, userName: string)
      returns (entries: Option<seq<RewardEntry>>)
      modifies this
      ensures !checkEnabled ==> entries == Some([]) && events == old(events) && lastLoaded == old(lastLoaded)
      ensures checkEnabled && fileExists && NeedsReload(old(lastLoaded), mtime) && parsed.Some? ==>
        events == parsed.value && lastLoaded == Some(mtime)
      ensures checkEnabled && !(fileExists && NeedsReload(old(lastLoaded), mtime) && parsed.Some?) ==>
        events == old(events) && lastLoaded == old(lastLoaded)
      ensures checkEnabled && fileExists && (!NeedsReload(old(lastLoaded), mtime) || parsed.Some?) ==>
        && (EnabledDatesReadable(events) ==>
              entries == Some(RewardEntries(RunningEvents(events, today), inviterId, guildId, userId, userName)))
        && (!EnabledDatesReadable(events) ==> entries.None?)
      ensures checkEnabled && !(fileExists && (!NeedsReload(old(lastLoaded), mtime) || parsed.Some?)) ==> entries == Some([])
    {
      if !checkEnabled {
        return Some([]);
      }
      var found := GetActiveEvents(fileExists, mtime, parsed, today);
      if found.None? {
        return None;
      }
      var active := found.value;
      if active == [] {
        return Some([]);
      }
      var owed := [];
      var i := 0;
      while i < |active|
        invariant i <= |active|
        invariant owed == RewardEntries(active[..i], inviterId, guildId, userId, userName)
        modifies {}
      {
        var e := active[i];
        RewardEntriesSnoc(active, i, inviterId, guildId, userId, userName);
        if e.kind == Some("invite_reward") && ConditionsMet(e) {
          owed := AppendRewards(owed, e, inviterId, guildId, userId, userName);
        }
        i := i + 1;
      }
      assert active[..i] == active;
      entries := Some(owed);
    }
  }
}
