// The meeting manager: who may see a meeting, who may cancel it and what cancelling does,
// and how the attendee list is shown.

module MeetingManagement {
  import opened Common

  /** An invited member and their answer ("attending", "pending", "not_attending"). */
  datatype Attendee = Attendee(userId: int, username: Option<string>, status: string,
                               availableTimes: Option<string>)

  datatype Meeting = Meeting(id: string, title: string, organizer: int, status: string,
                             attendees: seq<Attendee>, cancelledAt: Option<int>)

  const IdLength := 24

  predicate Listed(attendees: seq<Attendee>, user: int) {
    exists i :: 0 <= i < |attendees| && attendees[i].userId == user
  }

  /** The organizer or a listed attendee. */
  predicate HasAccess(m: Meeting, user: int) {
    m.organizer == user || Listed(m.attendees, user)
  }

  datatype InfoOutcome = BadId | NotFound | NoAccess | Shown(manageable: bool)

  /** `show_meeting_info`: an id that is not 24 characters long is refused before the
      lookup; the details go only to the organizer and the attendees, and the management
      buttons only to the organizer of a scheduled meeting. */
  function ShowMeetingInfo(meetings: map<string, Meeting>, id: string, user: int): (r: InfoOutcome)
    ensures |id| != IdLength ==> r == BadId
    ensures r.Shown? <==> |id| == IdLength && id in meetings && HasAccess(meetings[id], user)
    ensures r.Shown? ==> (r.manageable <==> meetings[id].organizer == user && meetings[id].status == "scheduled")
  {
    if id == "" || |id| != IdLength then BadId
    else if id !in meetings then NotFound
    else
      var m := meetings[id];
      if !HasAccess(m, user) then NoAccess
      else Shown(m.organizer == user && m.status == "scheduled")
  }

  /** `cancel_meeting`'s guard: the meeting exists, the caller organised it and it is still
      scheduled. */
  predicate CanCancel(meetings: map<string, Meeting>, id: string, user: int) {
    id in meetings && meetings[id].organizer == user && meetings[id].status == "scheduled"
  }

  function Cancelled(m: Meeting, now: int): Meeting {
    m.(status := "cancelled", cancelledAt := Some(now))
  }

  /** The attendees told by direct message: those who said they would attend. */
  function CancelRecipients(attendees: seq<Attendee>): (ids: seq<int>)
    ensures forall u :: u in ids <==> exists i :: 0 <= i < |attendees| && attendees[i].status == "attending" && attendees[i].userId == u
  {
    if attendees == [] then []
    else
      var rest := CancelRecipients(attendees[1..]);
      assert forall i :: 0 <= i < |attendees[1..]| ==> attendees[1..][i] == attendees[i + 1];
      (if attendees[0].status == "attending" then [attendees[0].userId] else []) + rest
  }

  /** A cancelled meeting cannot be cancelled again. */
  lemma CancelOnce(meetings: map<string, Meeting>, id: string, user: int, now: int, user2: int)
    requires CanCancel(meetings, id, user)
    ensures !CanCancel(meetings[id := Cancelled(meetings[id], now)], id, user2)
  {
  }

  // ---------------------------------------------------------------------------
  // The attendee list

  const NoAttendees := "無其他參與者"

  /** The shown name: the member's display name in the guild, else a mention. */
  function NameOf(a: Attendee, displayNames: map<int, string>): string {
    if a.userId in displayNames then displayNames[a.userId] else "<@" + IntToString(a.userId) + ">"
  }

  /** The marked names of the attendees with the given status, in order. */
  function Marked(attendees: seq<Attendee>, status: string, mark: string, displayNames: map<int, string>)
    : (r: seq<string>)
    ensures |r| == CountWhere(attendees, (a: Attendee) => a.status == status)
    decreases |attendees|
  {
    if attendees == [] then []
    else
      var front := attendees[..|attendees| - 1];
      var a := attendees[|attendees| - 1];
      assert attendees == front + [a];
      CountWhereAppend(front, [a], (a: Attendee) => a.status == status);
      Marked(front, status, mark, displayNames)
      + (if a.status == status then [mark + NameOf(a, displayNames)] else [])
  }

  lemma MarkedSnoc(attendees: seq<Attendee>, a: Attendee, status: string, mark: string,
                   displayNames: map<int, string>)
    ensures Marked(attendees + [a], status, mark, displayNames)
      == Marked(attendees, status, mark, displayNames)
       + (if a.status == status then [mark + NameOf(a, displayNames)] else [])
  {
    assert (attendees + [a])[..|attendees|] == attendees;
  }

  /** One more attendee of a prefix: its marked name is appended when its status matches. */
  lemma MarkedPrefix(attendees: seq<Attendee>, i: nat, status: string, mark: string,
                     displayNames: map<int, string>)
    requires i < |attendees|
    ensures Marked(attendees[..i + 1], status, mark, displayNames)
      == Marked(attendees[..i], status, mark, displayNames)
       + (if attendees[i].status == status then [mark + NameOf(attendees[i], displayNames)] else [])
  {
    assert attendees[..i + 1] == attendees[..i] + [attendees[i]];
    MarkedSnoc(attendees[..i], attendees[i], status, mark, displayNames);
  }

  /** `**{title} ({n}):** name, name, ...`, or nothing for an empty group. */
  function Group(title: string, names: seq<string>): (r: seq<string>)
    ensures |r| == if names == [] then 0 else 1
  {
    if names == [] then []
    else ["**" + title + " (" + IntToString(|names|) + "):** " + Join(names, ", ")]
  }

  function AttendingNames(attendees: seq<Attendee>, displayNames: map<int, string>): seq<string> {
    Marked(attendees, "attending", "✅ ", displayNames)
  }

  function PendingNames(attendees: seq<Attendee>, displayNames: map<int, string>): seq<string> {
    Marked(attendees, "pending", "⏳ ", displayNames)
  }

  function AbsentNames(attendees: seq<Attendee>, displayNames: map<int, string>): seq<string> {
    Marked(attendees, "not_attending", "❌ ", displayNames)
  }

  /** The groups shown, attending first, then pending, then not attending. */
  function AttendeeGroups(attendees: seq<Attendee>, displayNames: map<int, string>): (parts: seq<string>)
  {
    Group("參加", AttendingNames(attendees, displayNames))
    + Group("待回覆", PendingNames(attendees, displayNames))
    + Group("無法參加", AbsentNames(attendees, displayNames))
  }

  /** The text of `_format_attendees`. */
  function AttendeeText(attendees: seq<Attendee>, displayNames: map<int, string>): (text: string) {
    var parts := AttendeeGroups(attendees, displayNames);
    if attendees == [] || parts == [] then NoAttendees else Join(parts, "\n")
  }

  /** There is one line per status that occurs, and the placeholder exactly when no attendee
      has one of the three statuses. */
  lemma AttendeeTextShape(attendees: seq<Attendee>, displayNames: map<int, string>)
    ensures |AttendeeGroups(attendees, displayNames)|
      == (if AttendingNames(attendees, displayNames) == [] then 0 else 1)
       + (if PendingNames(attendees, displayNames) == [] then 0 else 1)
       + (if AbsentNames(attendees, displayNames) == [] then 0 else 1)
    ensures AttendeeGroups(attendees, displayNames) == [] <==>
      forall i :: 0 <= i < |attendees| ==>
        attendees[i].status != "attending" && attendees[i].status != "pending" && attendees[i].status != "not_attending"
  {
    var inAny := forall i :: 0 <= i < |attendees| ==>
        attendees[i].status != "attending" && attendees[i].status != "pending" && attendees[i].status != "not_attending";
    if !inAny {
      var i :| 0 <= i < |attendees| && !(attendees[i].status != "attending" && attendees[i].status != "pending"
        && attendees[i].status != "not_attending");
      CountWherePositive(attendees, (a: Attendee) => a.status == attendees[i].status, i);
    } else {
      CountWhereZero(attendees, (a: Attendee) => a.status == "attending");
      CountWhereZero(attendees, (a: Attendee) => a.status == "pending");
      CountWhereZero(attendees, (a: Attendee) => a.status == "not_attending");
    }
  }

  lemma {:induction false} CountWherePositive<T>(s: seq<T>, p: T -> bool, i: nat)
    requires i < |s| && p(s[i])
    ensures CountWhere(s, p) > 0
    decreases |s|
  {
    if i > 0 {
      CountWherePositive(s[1..], p, i - 1);
    }
  }

  lemma {:induction false} CountWhereZero<T>(s: seq<T>, p: T -> bool)
    requires forall i :: 0 <= i < |s| ==> !p(s[i])
    ensures CountWhere(s, p) == 0
    decreases |s|
  {
    if s != [] {
      CountWhereZero(s[1..], p);
    }
  }

  /** `_format_attendees`: one pass sorting the attendees into the three groups. */
  method FormatAttendees(attendees: seq<Attendee>, displayNames: map<int, string>) returns (text: string)
    ensures text == AttendeeText(attendees, displayNames)
  {
    if attendees == [] {
      return NoAttendees;
    }
    var attending, pending, absent := SortAttendees(attendees, displayNames);
    var parts := Group("參加", attending) + Group("待回覆", pending) + Group("無法參加", absent);
    text := if parts == [] then NoAttendees else Join(parts, "\n");
  }

  /** The loop of `_format_attendees`: each attendee's marked name joins the group of its status. */
  method SortAttendees(attendees: seq<Attendee>, displayNames: map<int, string>)
    returns (attending: seq<string>, pending: seq<string>, absent: seq<string>)
    ensures attending == AttendingNames(attendees, displayNames)
    ensures pending == PendingNames(attendees, displayNames)
    ensures absent == AbsentNames(attendees, displayNames)
  {
    attending, pending, absent := [], [], [];
    for i := 0 to |attendees|
      invariant attending == AttendingNames(attendees[..i], displayNames)
      invariant pending == PendingNames(attendees[..i], displayNames)
      invariant absent == AbsentNames(attendees[..i], displayNames)
    {
      var a := attendees[i];
      MarkedPrefix(attendees, i, "attending", "✅ ", displayNames);
      MarkedPrefix(attendees, i, "pending", "⏳ ", displayNames);
      MarkedPrefix(attendees, i, "not_attending", "❌ ", displayNames);
      var name := NameOf(a, displayNames);
      // the three statuses are distinct, so at most one group grows
      attending := attending + (if a.status == "attending" then ["✅ " + name] else []);
      pending := pending + (if a.status == "pending" then ["⏳ " + name] else []);
      absent := absent + (if a.status == "not_attending" then ["❌ " + name] else []);
    }
    assert attendees[..|attendees|] == attendees;
  }

  // ---------------------------------------------------------------------------
  // The store

  class MeetingManager {
    var meetings: map<string, Meeting>

    constructor(initial: map<string, Meeting>)
      ensures meetings == initial
    {
      meetings := initial;
    }

    /** `cancel_meeting`. The guard failing changes nothing; otherwise the meeting is stored
        as cancelled at `now` when the save succeeds. `remindersOk` is false when setting up
        the reminder service raises after the save, which makes the call answer False; a
        failure while deleting the reminders is caught inside `cancel_meeting_reminders` and
        does not change the answer. */
    method CancelMeeting(id: string, user: int, now: int, saveOk: bool, remindersOk: bool)
      returns (ok: bool)
      modifies this
      ensures ok <==> CanCancel(old(meetings), id, user) && saveOk && remindersOk
      ensures CanCancel(old(meetings), id, user) && saveOk ==>
        meetings == old(meetings)[id := Cancelled(old(meetings)[id], now)]
      ensures !(CanCancel(old(meetings), id, user) && saveOk) ==> meetings == old(meetings)
    {
      if id !in meetings {
        return false;
      }
      var m := meetings[id];
      if m.organizer != user {
        return false;
      }
      if m.status != "scheduled" {
        return false;
      }
      if !saveOk {
        return false;
      }
      meetings := meetings[id := m.(status := "cancelled", cancelledAt := Some(now))];
      ok := remindersOk;
    }
  }
}
