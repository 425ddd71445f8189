/** The recording manager: the list of meetings in progress and the pool of recording bots, with
    the rules that pick a free bot for a new meeting room, hand free bots to meetings without a
    recorder, and stop a channel's recording. */
module RecordingPool {
  import opened Common
  import opened RecordingBots

  /** The bot attributes the rules read but never change. */
  datatype BotStatic = BotStatic(userId: Option<int>, ready: bool, guildChannels: Option<set<int>>)

  /** Every bot's `meeting_voice_channel_info`, in pool order. */
  type InfoTable = seq<map<int, MeetingInfo>>

  // ---------------------------------------------------------------------------
  // Which bots are busy and free

  /** The bot has a recording task on some channel; with `inProgress` given, only channels still
      in progress count. */
  predicate RecordsOn(info: map<int, MeetingInfo>, inProgress: Option<seq<int>>) {
    exists vc :: vc in info && info[vc].recordingTask.Some? && (inProgress.None? || vc in inProgress.value)
  }

  /** The user ids of the first `n` bots that are logged in and record on some (counted) channel. */
  function UsedIds(st: seq<BotStatic>, infos: InfoTable, inProgress: Option<seq<int>>, n: nat): (ids: set<int>)
    requires n <= |st| == |infos|
    ensures forall k :: 0 <= k < n && st[k].userId.Some? && RecordsOn(infos[k], inProgress) ==> st[k].userId.value in ids
  {
    if n == 0 then {}
    else
      UsedIds(st, infos, inProgress, n - 1) +
      (if st[n - 1].userId.Some? && RecordsOn(infos[n - 1], inProgress) then {st[n - 1].userId.value} else {})
  }

  /** A free bot is logged in, ready, and its user id is not among the used ones. */
  predicate IsFree(st: seq<BotStatic>, infos: InfoTable, inProgress: Option<seq<int>>, k: nat)
    requires |st| == |infos|
  {
    k < |st| && st[k].userId.Some? && st[k].ready && st[k].userId.value !in UsedIds(st, infos, inProgress, |st|)
  }

  /** The free bots from index `k` on, in pool order. */
  function FreeFrom(st: seq<BotStatic>, infos: InfoTable, inProgress: Option<seq<int>>, k: nat): (r: seq<nat>)
    requires |st| == |infos|
    ensures forall x :: x in r <==> k <= x && IsFree(st, infos, inProgress, x)
    ensures forall i, j :: 0 <= i < j < |r| ==> r[i] < r[j]
    ensures forall i :: 0 <= i < |r| ==> k <= r[i] < |st|
    decreases |st| - k
  {
    if k >= |st| then []
    else (if IsFree(st, infos, inProgress, k) then [k] else []) + FreeFrom(st, infos, inProgress, k + 1)
  }

  /** Free bots, in pool order. */
  function FreeBots(st: seq<BotStatic>, infos: InfoTable, inProgress: Option<seq<int>>): (r: seq<nat>)
    requires |st| == |infos|
    ensures forall x :: x in r <==> IsFree(st, infos, inProgress, x)
    ensures NoDuplicates(r)
  {
    FreeFrom(st, infos, inProgress, 0)
  }

  /** Counting only in-progress channels makes fewer bots busy: a bot free for a new meeting
      room is also free for scheduling. */
  lemma {:induction false} UsedIdsInProgressSubset(st: seq<BotStatic>, infos: InfoTable, m: seq<int>, n: nat)
    requires n <= |st| == |infos|
    ensures UsedIds(st, infos, Some(m), n) <= UsedIds(st, infos, None, n)
  {
    if n > 0 {
      UsedIdsInProgressSubset(st, infos, m, n - 1);
      if st[n - 1].userId.Some? && RecordsOn(infos[n - 1], Some(m)) {
        var vc :| vc in infos[n - 1] && infos[n - 1][vc].recordingTask.Some? && vc in m;
        assert RecordsOn(infos[n - 1], None);
      }
    }
  }

  lemma FreeForNewRoomIsFreeForScheduling(st: seq<BotStatic>, infos: InfoTable, m: seq<int>, k: nat)
    requires |st| == |infos| && IsFree(st, infos, None, k)
    ensures IsFree(st, infos, Some(m), k)
  {
    UsedIdsInProgressSubset(st, infos, m, |st|);
  }

  // ---------------------------------------------------------------------------
  // Scheduling, on values

  /** Some bot has a recording task for the channel. */
  predicate HasTask(infos: InfoTable, vc: int) {
    exists k :: 0 <= k < |infos| && vc in infos[k] && infos[k][vc].recordingTask.Some?
  }

  /** The info of the first bot from index `k` on that knows the channel, or an empty dict. */
  function Origin(infos: InfoTable, vc: int, k: nat): (o: MeetingInfo)
    ensures o == MeetingInfo(None, None) || exists j :: k <= j < |infos| && vc in infos[j] && o == infos[j][vc]
    decreases |infos| - k
  {
    if k >= |infos| then MeetingInfo(None, None)
    else if vc in infos[k] then infos[k][vc]
    else Origin(infos, vc, k + 1)
  }

  predicate ValidFree(infos: InfoTable, free: seq<nat>) {
    forall i :: 0 <= i < |free| ==> free[i] < |infos|
  }

  /** One meeting of `schedule_bots`: unless some bot already records it or no bot is free, the
      first free bot gets a copy of the originating info, with a new recording task when its
      guild has the channel. */
  function Step(st: seq<BotStatic>, infos: InfoTable, vc: int, free: seq<nat>): (r: (InfoTable, seq<nat>))
    requires |st| == |infos| && ValidFree(infos, free)
    ensures |r.0| == |infos| && ValidFree(r.0, r.1)
    ensures r.1 == free || (free != [] && r.1 == free[1..])
  {
    if HasTask(infos, vc) || free == [] then (infos, free)
    else
      var c := free[0];
      var copy := Origin(infos, vc, 0);
      var entry := if st[c].guildChannels.Some? && vc in st[c].guildChannels.value
                   then copy.(recordingTask := Some(Task(false))) else copy;
      (infos[c := infos[c][vc := entry]], free[1..])
  }

  /** `schedule_bots` over the meetings in progress, handing out the free bots in order. */
  function Schedule(st: seq<BotStatic>, infos: InfoTable, meetings: seq<int>, free: seq<nat>): (r: InfoTable)
    requires |st| == |infos| && ValidFree(infos, free)
    ensures |r| == |infos|
    decreases |meetings|
  {
    if meetings == [] then infos
    else
      var s := Step(st, infos, meetings[0], free);
      Schedule(st, s.0, meetings[1..], s.1)
  }

  /** The channels at which a bot's info was added or replaced. */
  predicate ChangedAt(a: map<int, MeetingInfo>, b: map<int, MeetingInfo>, vc: int) {
    vc in b && (vc !in a || a[vc] != b[vc])
  }

  /** A bot's info grew by at most one channel entry, and none was removed. */
  ghost predicate AtMostOneChange(a: map<int, MeetingInfo>, b: map<int, MeetingInfo>) {
    && a.Keys <= b.Keys
    && forall x, y :: ChangedAt(a, b, x) && ChangedAt(a, b, y) ==> x == y
  }

  /** Bots that were not free are untouched; a free bot receives at most one meeting, since it
      is popped from the free list when chosen. */
  lemma {:induction false} ScheduleChangesOnlyFreeBots(st: seq<BotStatic>, infos: InfoTable, meetings: seq<int>, free: seq<nat>, k: nat)
    requires |st| == |infos| && ValidFree(infos, free) && NoDuplicates(free) && k < |infos|
    ensures k !in free ==> Schedule(st, infos, meetings, free)[k] == infos[k]
    ensures AtMostOneChange(infos[k], Schedule(st, infos, meetings, free)[k])
    decreases |meetings|
  {
    if meetings != [] {
      var s := Step(st, infos, meetings[0], free);
      assert NoDuplicates(s.1) by {
        if s.1 != free {
          forall i, j | 0 <= i < j < |s.1| ensures s.1[i] != s.1[j] {
            assert s.1[i] == free[i + 1] && s.1[j] == free[j + 1];
          }
        }
      }
      ScheduleChangesOnlyFreeBots(st, s.0, meetings[1..], s.1, k);
      if s.1 != free && free[0] == k {
        assert k !in s.1 by {
          forall i | 0 <= i < |s.1| ensures s.1[i] != k {
            assert s.1[i] == free[i + 1];
          }
        }
      } else {
        assert s.0[k] == infos[k];
        if k !in free {
          assert k !in s.1;
        }
      }
    }
  }

  /** A step keeps every existing recording task. */
  lemma StepKeepsTask(st: seq<BotStatic>, infos: InfoTable, vc: int, free: seq<nat>, other: int, k: nat)
    requires |st| == |infos| && ValidFree(infos, free)
    requires k < |infos| && other in infos[k] && infos[k][other].recordingTask.Some?
    ensures other in Step(st, infos, vc, free).0[k]
    ensures Step(st, infos, vc, free).0[k][other] == infos[k][other]
  {
    if !HasTask(infos, vc) && free != [] {
      assert vc != other;
    }
  }

  /** A meeting some bot already records is left exactly as it was in every bot's info. */
  lemma {:induction false} ScheduleSkipsRecordedMeetings(st: seq<BotStatic>, infos: InfoTable, meetings: seq<int>, free: seq<nat>, vc: int)
    requires |st| == |infos| && ValidFree(infos, free) && HasTask(infos, vc)
    ensures forall k :: 0 <= k < |infos| ==>
      (vc in Schedule(st, infos, meetings, free)[k] <==> vc in infos[k])
    ensures forall k :: 0 <= k < |infos| && vc in infos[k] ==>
      Schedule(st, infos, meetings, free)[k][vc] == infos[k][vc]
    decreases |meetings|
  {
    if meetings != [] {
      var s := Step(st, infos, meetings[0], free);
      var w :| 0 <= w < |infos| && vc in infos[w] && infos[w][vc].recordingTask.Some?;
      StepKeepsTask(st, infos, meetings[0], free, vc, w);
      assert HasTask(s.0, vc);
      ScheduleSkipsRecordedMeetings(st, s.0, meetings[1..], s.1, vc);
      forall k | 0 <= k < |infos|
        ensures (vc in s.0[k] <==> vc in infos[k])
        ensures vc in infos[k] ==> s.0[k][vc] == infos[k][vc]
      {
        if !HasTask(infos, meetings[0]) && free != [] {
          assert meetings[0] != vc;
        }
      }
    }
  }

  /** The first bot from index `k` on that has a not-yet-done recording task for the channel. */
  function FirstRunning(infos: InfoTable, vc: int, k: nat): (r: Option<nat>)
    ensures r.Some? ==>
      (k <= r.value < |infos| && vc in infos[r.value] && infos[r.value][vc].recordingTask == Some(Task(false)))
    ensures r.Some? ==> forall j :: k <= j < r.value ==>
      !(vc in infos[j] && infos[j][vc].recordingTask == Some(Task(false)))
    ensures r.None? <==> forall j :: k <= j < |infos| ==>
      !(vc in infos[j] && infos[j][vc].recordingTask == Some(Task(false)))
    decreases |infos| - k
  {
    if k >= |infos| then None
    else if vc in infos[k] && infos[k][vc].recordingTask == Some(Task(false)) then Some(k)
    else FirstRunning(infos, vc, k + 1)
  }

  /** `list.remove`: drops the first occurrence; a missing element leaves the list as it is. */
  function RemoveFirst(s: seq<int>, x: int): (r: seq<int>)
    ensures x !in s ==> r == s
    ensures x in s ==> multiset(r) == multiset(s) - multiset{x}
    ensures |r| == if x in s then |s| - 1 else |s|
  {
    if s == [] then []
    else
      assert s == [s[0]] + s[1..];
      if s[0] == x then s[1..]
      else [s[0]] + RemoveFirst(s[1..], x)
  }

  // ---------------------------------------------------------------------------
  // The manager

  class RecordingManager {
    const bots: seq<RecordingBot>
    var meetingsInProgress: seq<int>

    /** The pool holds distinct bots. */
    ghost predicate Valid()
      reads this
    {
      forall i, j :: 0 <= i < j < |bots| ==> bots[i] != bots[j]
    }

    function Statics(): (st: seq<BotStatic>)
      ensures |st| == |bots|
    {
      seq(|bots|, k requires 0 <= k < |bots| => BotStatic(bots[k].userId, bots[k].ready, bots[k].guildChannels))
    }

    function Infos(): (infos: InfoTable)
      reads set k | 0 <= k < |bots| :: bots[k]
      ensures |infos| == |bots|
    {
      seq(|bots|, k requires 0 <= k < |bots| reads set j | 0 <= j < |bots| :: bots[j] => bots[k].meetingInfo)
    }

    constructor (bots: seq<RecordingBot>)
      requires forall i, j :: 0 <= i < j < |bots| ==> bots[i] != bots[j]
      ensures Valid() && this.bots == bots && meetingsInProgress == []
    {
      this.bots := bots;
      meetingsInProgress := [];
    }

    /** `finish_meeting`: removes one occurrence of the channel, if there is one. */
    method FinishMeeting(vc: int)
      modifies this`meetingsInProgress
      ensures meetingsInProgress == RemoveFirst(old(meetingsInProgress), vc)
    {
      meetingsInProgress := RemoveFirst(meetingsInProgress, vc);
    }

    /** The busy bots' user ids, computed bot by bot. */
    method ComputeUsed(inProgress: Option<seq<int>>) returns (used: set<int>)
      ensures used == UsedIds(Statics(), Infos(), inProgress, |bots|)
    {
      used := {};
      for n := 0 to |bots|
        invariant used == UsedIds(Statics(), Infos(), inProgress, n)
      {
        if bots[n].userId.Some? && RecordsOn(bots[n].meetingInfo, inProgress) {
          used := used + {bots[n].userId.value};
        }
      }
    }

    /** The free bots, in pool order. */
    method ComputeFree(inProgress: Option<seq<int>>) returns (free: seq<nat>)
      ensures free == FreeBots(Statics(), Infos(), inProgress)
    {
      var used := ComputeUsed(inProgress);
      free := [];
      var n := |bots|;
      while n > 0
        invariant 0 <= n <= |bots|
        invariant free == FreeFrom(Statics(), Infos(), inProgress, n)
      {
        n := n - 1;
        var b := bots[n];
        if b.userId.Some? && b.userId.value !in used && b.ready {
          free := [n] + free;
        }
      }
    }

    /** `assign_bot_for_meeting`: the first free bot, counting a task on any channel as busy, or
        none when no bot is free. */
    method AssignBotForMeeting() returns (chosen: Option<nat>)
      ensures chosen.Some? ==> IsFree(Statics(), Infos(), None, chosen.value)
      ensures chosen.Some? ==> forall j :: 0 <= j < chosen.value ==> !IsFree(Statics(), Infos(), None, j)
      ensures chosen.None? <==> forall j :: 0 <= j < |bots| ==> !IsFree(Statics(), Infos(), None, j)
    {
      var free := ComputeFree(None);
      if free == [] {
        return None;
      }
      chosen := Some(free[0]);
    }

    /** Whether some bot has a recording task for the channel. */
    method AnyRecording(vc: int) returns (has: bool)
      ensures has == HasTask(Infos(), vc)
    {
      has := false;
      for k := 0 to |bots|
        invariant !has
        invariant forall j :: 0 <= j < k ==> !(vc in Infos()[j] && Infos()[j][vc].recordingTask.Some?)
      {
        var info := bots[k].meetingInfo;
        if vc in info && info[vc].recordingTask.Some? {
          assert Infos()[k] == info;
          return true;
        }
      }
    }

    /** The info of the first bot that knows the channel, or an empty dict. */
    method OriginInfo(vc: int) returns (o: MeetingInfo)
      ensures o == Origin(Infos(), vc, 0)
    {
      var k := |bots|;
      o := MeetingInfo(None, None);
      while k > 0
        invariant 0 <= k <= |bots|
        invariant o == Origin(Infos(), vc, k)
      {
        k := k - 1;
        if vc in bots[k].meetingInfo {
          o := bots[k].meetingInfo[vc];
        }
      }
    }

    /** `schedule_bots`: free bots (busy meaning a task on a channel still in progress) are handed
        out in order to the meetings in progress that no bot records yet. */
    method ScheduleBots()
      requires Valid()
      modifies set k | 0 <= k < |bots| :: bots[k]
      ensures Infos() == Schedule(Statics(), old(Infos()), meetingsInProgress,
                                  FreeBots(Statics(), old(Infos()), Some(meetingsInProgress)))
    {
      var free := ComputeFree(Some(meetingsInProgress));
      ghost var infos0 := Infos();
      ghost var free0 := free;
      for i := 0 to |meetingsInProgress|
        invariant ValidFree(Infos(), free)
        invariant Schedule(Statics(), Infos(), meetingsInProgress[i..], free) == Schedule(Statics(), infos0, meetingsInProgress, free0)
      {
        assert meetingsInProgress[i..][1..] == meetingsInProgress[i + 1..];
        free := ScheduleMeeting(meetingsInProgress[i], free);
      }
      assert meetingsInProgress[|meetingsInProgress|..] == [];
    }

    /** One meeting of `schedule_bots`, as `Step` describes it. */
    method ScheduleMeeting(vc: int, free0: seq<nat>) returns (free: seq<nat>)
      requires Valid() && ValidFree(Infos(), free0)
      modifies set k | 0 <= k < |bots| :: bots[k]
      ensures (Infos(), free) == Step(Statics(), old(Infos()), vc, free0)
    {
      free := free0;
      ghost var before: InfoTable := Infos();
      var has := AnyRecording(vc);
      if !has && free != [] {
        var c := free[0];
        var copy := OriginInfo(vc);
        var entry := copy;
        if bots[c].guildChannels.Some? && vc in bots[c].guildChannels.value {
          entry := copy.(recordingTask := Some(Task(false)));
        }
        bots[c].meetingInfo := bots[c].meetingInfo[vc := entry];
        assert Infos() == before[c := before[c][vc := entry]] by {
          forall k | 0 <= k < |bots| && k != c ensures bots[k] != bots[c] {
            if k < c { assert bots[k] != bots[c]; } else { assert bots[c] != bots[k]; }
          }
        }
        free := free[1..];
      }
    }

    /** `handle_new_meeting`: the channel is appended to the meetings in progress and the bots
        are rescheduled. */
    method HandleNewMeeting(vc: int)
      requires Valid()
      modifies this`meetingsInProgress, set k | 0 <= k < |bots| :: bots[k]
      ensures meetingsInProgress == old(meetingsInProgress) + [vc]
      ensures Infos() == Schedule(Statics(), old(Infos()), meetingsInProgress,
                                  FreeBots(Statics(), old(Infos()), Some(meetingsInProgress)))
    {
      meetingsInProgress := meetingsInProgress + [vc];
      ScheduleBots();
    }

    /** `stop_recording`: cancels the first not-yet-done recording task for the channel and says
        whether there was one. */
    method StopRecording(vc: int) returns (stopped: bool)
      requires Valid()
      modifies set k | 0 <= k < |bots| :: bots[k]
      ensures stopped <==> FirstRunning(old(Infos()), vc, 0).Some?
      ensures !stopped ==> Infos() == old(Infos())
      ensures stopped ==>
        var c := FirstRunning(old(Infos()), vc, 0).value;
        Infos() == old(Infos())[c := old(Infos())[c][vc := old(Infos())[c][vc].(recordingTask := Some(Task(true)))]]
    {
      for k := 0 to |bots|
        invariant Infos() == old(Infos())
        invariant FirstRunning(old(Infos()), vc, 0) == FirstRunning(old(Infos()), vc, k)
      {
        var info := bots[k].meetingInfo;
        if vc in info && info[vc].recordingTask.Some? && !info[vc].recordingTask.value.done {
          ghost var before: InfoTable := Infos();
          bots[k].meetingInfo := info[vc := info[vc].(recordingTask := Some(Task(true)))];
          assert Infos() == before[k := before[k][vc := before[k][vc].(recordingTask := Some(Task(true)))]] by {
            forall j | 0 <= j < |bots| && j != k ensures bots[j] != bots[k] {
              if j < k { assert bots[j] != bots[k]; } else { assert bots[k] != bots[j]; }
            }
          }
          return true;
        }
      }
      return false;
    }
  }
}
