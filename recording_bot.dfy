/** A recording bot's meeting bookkeeping: the per-channel meeting info created with a new
    meeting room, updated by members joining and leaving, and removed when the empty room is
    closed; plus the template escape processing. */
module RecordingBots {
  import opened Common

  /** A recording task; `done` once it has finished or been cancelled. */
  datatype Task = Task(done: bool)

  /** The participant part of a meeting's info. Times are integer seconds. */
  datatype Roster = Roster(
    startTime: int,
    active: set<int>,
    all: set<int>,
    threadId: Option<int>,
    joinTime: map<int, int>,
    leaveTime: map<int, int>,
    recordingStatus: map<int, bool>)

  /** A channel's info dict. A bot handed a meeting nobody knows gets an empty dict, which is
      `roster == None`; the scheduler adds the recording task. */
  datatype MeetingInfo = MeetingInfo(roster: Option<Roster>, recordingTask: Option<Task>)

  /** What join and leave keep true of a roster: the active members are among all members,
      every member has a join time and a recording status, the status says whether the member
      is active, and only inactive members have a leave time. */
  predicate RosterOk(r: Roster) {
    && r.active <= r.all
    && r.joinTime.Keys == r.all
    && r.recordingStatus.Keys == r.all
    && (forall u :: u in r.recordingStatus ==> (r.recordingStatus[u] <==> u in r.active))
    && (forall u :: u in r.leaveTime ==> u in r.all && u !in r.active)
  }

  /** The info stored for a new meeting: the initiator is the only active and all-time
      participant, joined at `now` with status true and no leave time; no recording task yet. */
  function NewMeeting(initiator: int, now: int, threadId: Option<int>): (info: MeetingInfo)
    ensures info.recordingTask == None && info.roster.Some?
    ensures RosterOk(info.roster.value)
    ensures info.roster.value.active == info.roster.value.all == {initiator}
    ensures info.roster.value.leaveTime == map[] && info.roster.value.startTime == now
  {
    MeetingInfo(Some(Roster(now, {initiator}, {initiator}, threadId, map[initiator := now], map[], map[initiator := true])), None)
  }

  /** A member joins: active and all-time participant, join time now, status true, no leave time. */
  function Joined(r: Roster, member: int, now: int): (r': Roster)
    ensures r'.active == r.active + {member} && r'.all == r.all + {member}
    ensures r'.joinTime == r.joinTime[member := now]
    ensures r'.leaveTime == r.leaveTime - {member}
    ensures r'.startTime == r.startTime && r'.threadId == r.threadId
  {
    r.(active := r.active + {member}, all := r.all + {member},
       joinTime := r.joinTime[member := now],
       recordingStatus := r.recordingStatus[member := true],
       leaveTime := r.leaveTime - {member})
  }

  /** A member leaves: only an active member is removed (all-time participants are kept), with a
      leave time and status false; anyone else leaves the roster unchanged. */
  function Left(r: Roster, member: int, now: int): (r': Roster)
    ensures r'.all == r.all && r'.joinTime == r.joinTime && r'.startTime == r.startTime
    ensures r'.active == r.active - {member}
    ensures member !in r.active ==> r' == r
    ensures member in r.active ==> r'.leaveTime == r.leaveTime[member := now]
  {
    if member in r.active then
      r.(active := r.active - {member}, leaveTime := r.leaveTime[member := now],
         recordingStatus := r.recordingStatus[member := false])
    else r
  }

  /** Joining keeps the roster invariant, so active stays within all participants. */
  lemma JoinedKeepsRosterOk(r: Roster, member: int, now: int)
    requires RosterOk(r)
    ensures RosterOk(Joined(r, member, now))
    ensures member in Joined(r, member, now).active
  {
    var r' := Joined(r, member, now);
    forall u | u in r'.recordingStatus
      ensures r'.recordingStatus[u] <==> u in r'.active
    {
      if u != member {
        assert u in r.recordingStatus;
      }
    }
  }

  /** Leaving keeps the roster invariant. */
  lemma LeftKeepsRosterOk(r: Roster, member: int, now: int)
    requires RosterOk(r)
    ensures RosterOk(Left(r, member, now))
    ensures member !in Left(r, member, now).active
  {
    var r' := Left(r, member, now);
    if member in r.active {
      forall u | u in r'.recordingStatus
        ensures r'.recordingStatus[u] <==> u in r'.active
      {
        if u != member {
          assert u in r.recordingStatus;
        }
      }
    }
  }

  // ---------------------------------------------------------------------------
  // Templates

  /** `str.replace('\\n', '\n')`: each backslash followed by `n`, scanned left to right without
      overlap, becomes a newline. */
  function ProcessTemplate(t: string): (r: string)
    ensures |r| <= |t|
  {
    if |t| >= 2 && t[0] == '\\' && t[1] == 'n' then "\n" + ProcessTemplate(t[2..])
    else if t == [] then []
    else [t[0]] + ProcessTemplate(t[1..])
  }

  /** The text holds a backslash immediately followed by `n`. */
  predicate HasEscapedNewline(s: string) {
    exists i :: 0 <= i < |s| - 1 && s[i] == '\\' && s[i + 1] == 'n'
  }

  /** A template without a literal backslash-n pair is left as it is. */
  lemma {:induction false} ProcessTemplatePlain(t: string)
    requires !HasEscapedNewline(t)
    ensures ProcessTemplate(t) == t
    decreases |t|
  {
    if t != [] {
      forall i | 0 <= i < |t[1..]| - 1
        ensures !(t[1..][i] == '\\' && t[1..][i + 1] == 'n')
      {
        assert t[1..][i] == t[i + 1] && t[1..][i + 1] == t[i + 2];
      }
      ProcessTemplatePlain(t[1..]);
    }
  }

  /** Writes each newline as a backslash and `n`. */
  function EscapeNewlines(s: string): (r: string)
    ensures |r| >= |s|
  {
    if s == [] then []
    else if s[0] == '\n' then "\\n" + EscapeNewlines(s[1..])
    else [s[0]] + EscapeNewlines(s[1..])
  }

  /** For text without backslashes, processing undoes escaping: a template written with
      literal `\n` pairs yields the intended multi-line text. */
  lemma {:induction false} ProcessEscapeRoundTrip(s: string)
    requires forall i :: 0 <= i < |s| ==> s[i] != '\\'
    ensures ProcessTemplate(EscapeNewlines(s)) == s
    decreases |s|
  {
    if s != [] {
      ProcessEscapeRoundTrip(s[1..]);
      if s[0] == '\n' {
        assert ("\\n" + EscapeNewlines(s[1..]))[2..] == EscapeNewlines(s[1..]);
      } else {
        var e := [s[0]] + EscapeNewlines(s[1..]);
        assert e[1..] == EscapeNewlines(s[1..]);
      }
    }
  }

  // ---------------------------------------------------------------------------
  // The bot

  class RecordingBot {
    /** The bot's user id, when logged in. */
    const userId: Option<int>
    const ready: bool
    /** The voice channels of the bot's first guild, when it is in one. */
    const guildChannels: Option<set<int>>
    var meetingInfo: map<int, MeetingInfo>
    /** Keys of the forum thread table. */
    var threads: set<int>

    ghost predicate Valid()
      reads this
    {
      forall ch :: ch in meetingInfo && meetingInfo[ch].roster.Some? ==> RosterOk(meetingInfo[ch].roster.value)
    }

    constructor (userId: Option<int>, ready: bool, guildChannels: Option<set<int>>)
      ensures Valid()
      ensures this.userId == userId && this.ready == ready && this.guildChannels == guildChannels
      ensures meetingInfo == map[] && threads == {}
    {
      this.userId := userId;
      this.ready := ready;
      this.guildChannels := guildChannels;
      meetingInfo := map[];
      threads := {};
    }

    /** `_create_new_meeting_room` once the channel `channelId` exists and the forum post (if
        any) is `thread`: the meeting info and thread are stored. A failure while creating the
        room stores nothing. */
    method CreateMeetingRoom(channelId: int, initiator: int, now: int, thread: Option<int>, fails: bool)
      requires Valid()
      modifies this
      ensures Valid()
      ensures fails ==> meetingInfo == old(meetingInfo) && threads == old(threads)
      ensures !fails ==> meetingInfo == old(meetingInfo)[channelId := NewMeeting(initiator, now, thread)]
      ensures !fails ==> threads == old(threads) + (if thread.Some? then {thread.value} else {})
    {
      if fails {
        return;
      }
      meetingInfo := meetingInfo[channelId := NewMeeting(initiator, now, thread)];
      if thread.Some? {
        threads := threads + {thread.value};
      }
    }

    /** `_handle_user_join_meeting`, called only for a channel with meeting info. An info dict
        without participant fields raises before any change. */
    method HandleUserJoin(channelId: int, member: int, now: int)
      requires Valid() && channelId in meetingInfo
      modifies this`meetingInfo
      ensures Valid()
      ensures old(meetingInfo[channelId]).roster.None? ==> meetingInfo == old(meetingInfo)
      ensures old(meetingInfo[channelId]).roster.Some? ==>
        meetingInfo == old(meetingInfo)[channelId :=
          old(meetingInfo[channelId]).(roster := Some(Joined(old(meetingInfo[channelId]).roster.value, member, now)))]
    {
      var info := meetingInfo[channelId];
      if info.roster.None? {
        return;
      }
      JoinedKeepsRosterOk(info.roster.value, member, now);
      meetingInfo := meetingInfo[channelId := info.(roster := Some(Joined(info.roster.value, member, now)))];
    }

    /** `_handle_user_leave_meeting`, called only for a channel with meeting info. The result says
        whether the delayed close is started, which happens when no human is left in the
        channel. */
    method HandleUserLeave(channelId: int, member: int, now: int, humansLeft: bool)
      returns (closeScheduled: bool)
      requires Valid() && channelId in meetingInfo
      modifies this`meetingInfo
      ensures Valid()
      ensures old(meetingInfo[channelId]).roster.None? ==> meetingInfo == old(meetingInfo) && !closeScheduled
      ensures old(meetingInfo[channelId]).roster.Some? ==>
        && meetingInfo == old(meetingInfo)[channelId :=
             old(meetingInfo[channelId]).(roster := Some(Left(old(meetingInfo[channelId]).roster.value, member, now)))]
        && (closeScheduled <==> !humansLeft)
    {
      var info := meetingInfo[channelId];
      if info.roster.None? {
        return false;
      }
      LeftKeepsRosterOk(info.roster.value, member, now);
      meetingInfo := meetingInfo[channelId := info.(roster := Some(Left(info.roster.value, member, now)))];
      closeScheduled := !humansLeft;
    }

    /** `close_meeting_after_delay` after the wait: the meeting is closed only when the bot is in
        a guild that still has the channel, the channel has no humans and its info exists (with
        participant fields). Closing removes the channel's info and its thread. */
    method CloseMeetingAfterDelay(channelId: int, humansPresent: bool) returns (closed: bool)
      requires Valid()
      modifies this`meetingInfo, this`threads
      ensures Valid()
      ensures closed <==>
        && guildChannels.Some? && channelId in guildChannels.value && !humansPresent
        && channelId in old(meetingInfo) && old(meetingInfo[channelId]).roster.Some?
      ensures !closed ==> meetingInfo == old(meetingInfo) && threads == old(threads)
      ensures closed ==>
        && meetingInfo == old(meetingInfo) - {channelId}
        && threads == old(threads) - (var t := old(meetingInfo[channelId]).roster.value.threadId;
                                      if t.Some? then {t.value} else {})
    {
      if guildChannels.None? || channelId !in guildChannels.value || humansPresent {
        return false;
      }
      if channelId !in meetingInfo || meetingInfo[channelId].roster.None? {
        return false;
      }
      var thread := meetingInfo[channelId].roster.value.threadId;
      meetingInfo := meetingInfo - {channelId};
      if thread.Some? && thread.value in threads {
        threads := threads - {thread.value};
      }
      closed := true;
    }
  }
}
