/** The file-backed mute manager: violation history per "guild:user" key, the progressive
    mute list, the tracked active mutes and the duration text. Times are integer seconds. */
module MuteManagement {
  import opened Common
  import MuteLadder

  /** `mute_durations`, minutes by offence: 5 min, 12 h, 7 d, 7 d, then 28 d. */
  const Durations: seq<nat> := [5, 720, 10080, 10080, 40320]

  /** `get_mute_duration`: none (0) for counts of zero or below, otherwise the list entry for
      the count, the last entry from the fifth offence on. */
  function MuteDuration(count: int): (m: nat)
    ensures count <= 0 ==> m == 0
    ensures count >= 1 ==> m == Durations[Min(count - 1, |Durations| - 1)]
  {
    if count <= 0 then 0 else Durations[Min(count - 1, |Durations| - 1)]
  }

  /** The ladder never goes down, and it tops out at 28 days. */
  lemma MuteDurationMonotone(a: int, b: int)
    requires a <= b
    ensures MuteDuration(a) <= MuteDuration(b) <= 40320
  {
  }

  /** The file-backed list and the stores' configured table give the same minutes for every
      violation count from one on. */
  lemma AgreesWithLadder(count: int)
    requires count >= 1
    ensures MuteLadder.CalculateMuteDuration(count) == Some(MuteDuration(count))
  {
  }

  /** The "next violation" warning appears only when the next mute is strictly longer, which is
      after the first, second and fourth offence; the final warning comes from the fifth on, so
      the third offence gets neither. */
  predicate ShowsNextWarning(count: int) {
    MuteDuration(count + 1) > MuteDuration(count)
  }

  predicate ShowsFinalWarning(count: int) {
    !ShowsNextWarning(count) && count >= |Durations|
  }

  lemma WarningsByOffence(count: int)
    requires count >= 1
    ensures ShowsNextWarning(count) <==> count == 1 || count == 2 || count == 4
    ensures ShowsFinalWarning(count) <==> count >= 5
  {
  }

  // ---------------------------------------------------------------------------
  // Duration text

  const MinuteWord: string := "分鐘"
  const HourWord: string := "小時"
  const DayWord: string := "天"

  /** `_format_duration`: minutes below an hour; hours below a day, with the leftover minutes
      when there are any; otherwise days, with the leftover whole hours when there are any. */
  function FormatMinutes(minutes: int): (r: string)
  {
    if minutes < 60 then Join([IntToString(minutes), MinuteWord], " ")
    else if minutes < 1440 then
      if minutes % 60 == 0 then Join([NatToString(minutes / 60), HourWord], " ")
      else Join([NatToString(minutes / 60), HourWord, NatToString(minutes % 60), MinuteWord], " ")
    else if (minutes % 1440) / 60 == 0 then Join([NatToString(minutes / 1440), DayWord], " ")
    else Join([NatToString(minutes / 1440), DayWord, NatToString((minutes % 1440) / 60), HourWord], " ")
  }

  function UnitMinutes(u: string): Option<nat> {
    if u == MinuteWord then Some(1) else if u == HourWord then Some(60) else if u == DayWord then Some(1440) else None
  }

  /** Reads `<n> <unit>` pairs back into minutes. */
  function ParsePairs(parts: seq<string>): (r: Option<int>)
    decreases |parts|
  {
    if parts == [] then Some(0)
    else if |parts| < 2 || !AllDigits(parts[0]) || UnitMinutes(parts[1]).None? then None
    else
      var rest := ParsePairs(parts[2..]);
      if rest.None? then None else Some(PairValue(parts[0], parts[1]) + rest.value)
  }

  /** The minutes of one `<n> <unit>` pair. */
  function PairValue(n: string, u: string): int
    requires AllDigits(n) && UnitMinutes(u).Some?
  {
    ParseDigits(n) * UnitMinutes(u).value
  }

  function ParseMinutes(t: string): Option<int> {
    ParsePairs(Split(t, ' '))
  }

  lemma NumberNoSpace(n: nat)
    ensures ' ' !in NatToString(n) && AllDigits(NatToString(n))
    ensures ParseDigits(NatToString(n)) == n
  {
    ParseNatToString(n);
    var s := NatToString(n);
    assert forall c | c in s :: IsDigit(c);
  }

  /** One `<n> <unit>` pair in front of the rest adds its minutes to the rest's. */
  lemma ParsePairStep(a: string, u: string, rest: seq<string>)
    requires AllDigits(a) && UnitMinutes(u).Some?
    ensures ParsePairs([a, u] + rest)
            == if ParsePairs(rest).None? then None
               else Some(PairValue(a, u) + ParsePairs(rest).value)
  {
    var p := [a, u] + rest;
    assert p != [] && |p| >= 2 && p[0] == a && p[1] == u && p[2..] == rest;
  }

  /** Text made of space-free pieces reads back piece by piece. */
  lemma ReadPieces(parts: seq<string>)
    requires parts != [] && forall i :: 0 <= i < |parts| ==> ' ' !in parts[i]
    ensures ParseMinutes(Join(parts, " ")) == ParsePairs(parts)
  {
    assert " " == [' '];
    JoinSplit(parts, ' ');
  }

  lemma ParseOnePair(n: nat, u: string, f: nat)
    requires UnitMinutes(u) == Some(f)
    ensures ParsePairs([NatToString(n), u]) == Some(n * f)
  {
    NumberNoSpace(n);
    ParsePairStep(NatToString(n), u, []);
    assert [NatToString(n), u] == [NatToString(n), u] + [];
  }

  lemma ParseTwoPairs(n: nat, u: string, f: nat, m: nat, v: string, g: nat)
    requires UnitMinutes(u) == Some(f) && UnitMinutes(v) == Some(g)
    ensures ParsePairs([NatToString(n), u, NatToString(m), v]) == Some(n * f + m * g)
  {
    var x, y := NatToString(n), NatToString(m);
    NumberNoSpace(n);
    ParseOnePair(m, v, g);
    ParsePairStep(x, u, [y, v]);
    assert [x, u, y, v] == [x, u] + [y, v];
  }

  lemma ReadOnePair(n: nat, u: string, f: nat)
    requires UnitMinutes(u) == Some(f) && ' ' !in u
    ensures ParseMinutes(Join([NatToString(n), u], " ")) == Some(n * f)
  {
    NumberNoSpace(n);
    ParseOnePair(n, u, f);
    ReadPieces([NatToString(n), u]);
  }

  lemma ReadTwoPairs(n: nat, u: string, f: nat, m: nat, v: string, g: nat)
    requires UnitMinutes(u) == Some(f) && ' ' !in u
    requires UnitMinutes(v) == Some(g) && ' ' !in v
    ensures ParseMinutes(Join([NatToString(n), u, NatToString(m), v], " ")) == Some(n * f + m * g)
  {
    var x, y := NatToString(n), NatToString(m);
    ParseTwoPairs(n, u, f, m, v, g);
    assert ' ' !in x && ' ' !in y by { NumberNoSpace(n); NumberNoSpace(m); }
    var parts := [x, u, y, v];
    assert forall i :: 0 <= i < |parts| ==> ' ' !in parts[i] by {
      forall i | 0 <= i < |parts| ensures ' ' !in parts[i] {
        if i == 0 { assert parts[i] == x; }
        else if i == 1 { assert parts[i] == u; }
        else if i == 2 { assert parts[i] == y; }
        else { assert parts[i] == v; }
      }
    }
    ReadPieces(parts);
  }

  lemma WordsHaveNoSpace()
    ensures ' ' !in MinuteWord && ' ' !in HourWord && ' ' !in DayWord
  {
  }

  /** Below an hour the text is the minutes; below a day it is hours and minutes. */
  lemma FormatBelowDayReadsBack(minutes: nat)
    requires minutes < 1440
    ensures ParseMinutes(FormatMinutes(minutes)) == Some(minutes)
  {
    WordsHaveNoSpace();
    if minutes < 60 {
      assert IntToString(minutes) == NatToString(minutes);
      ReadOnePair(minutes, MinuteWord, 1);
    } else if minutes % 60 == 0 {
      ReadOnePair(minutes / 60, HourWord, 60);
    } else {
      ReadTwoPairs(minutes / 60, HourWord, 60, minutes % 60, MinuteWord, 1);
    }
  }

  /** From a day on the text is days and whole hours. */
  lemma FormatFromDayReadsBack(minutes: nat)
    requires minutes >= 1440
    ensures ParseMinutes(FormatMinutes(minutes)) == Some(minutes - minutes % 60)
  {
    WordsHaveNoSpace();
    var d, h := minutes / 1440, (minutes % 1440) / 60;
    DayHourSplit(minutes);
    if h == 0 {
      assert FormatMinutes(minutes) == Join([NatToString(d), DayWord], " ");
      ReadOnePair(d, DayWord, 1440);
    } else {
      assert FormatMinutes(minutes) == Join([NatToString(d), DayWord, NatToString(h), HourWord], " ");
      ReadTwoPairs(d, DayWord, 1440, h, HourWord, 60);
    }
  }

  lemma DayHourSplit(minutes: nat)
    ensures minutes - minutes % 60 == (minutes / 1440) * 1440 + ((minutes % 1440) / 60) * 60
  {
    var d, r := minutes / 1440, minutes % 1440;
    assert minutes == d * 1440 + r;
    assert minutes % 60 == r % 60 by {
      assert d * 1440 == (d * 24) * 60;
    }
  }

  /** The text reads back as the same number of minutes below a day; from a day on it reads back
      as the minutes rounded down to whole hours (leftover minutes are not shown). */
  lemma FormatMinutesReadsBack(minutes: nat)
    ensures minutes < 1440 ==> ParseMinutes(FormatMinutes(minutes)) == Some(minutes)
    ensures minutes >= 1440 ==> ParseMinutes(FormatMinutes(minutes)) == Some(minutes - minutes % 60)
  {
    if minutes < 1440 {
      FormatBelowDayReadsBack(minutes);
    } else {
      FormatFromDayReadsBack(minutes);
    }
  }

  // ---------------------------------------------------------------------------
  // The manager

  /** One stored violation: when, the categories, and the content cut to 500 characters. */
  datatype ViolationRecord = ViolationRecord(timestamp: int, categories: seq<string>, content: string)

  /** One tracked mute. */
  datatype MuteInfo = MuteInfo(guildId: int, expiresAt: int, violationCount: nat, categories: seq<string>)

  /** The violation history key of a user in a guild. */
  function Key(guild: int, user: int): string {
    IntToString(guild) + ":" + IntToString(user)
  }

  /** Different (guild, user) pairs never share a history. */
  lemma KeyInjective(g1: int, u1: int, g2: int, u2: int)
    requires Key(g1, u1) == Key(g2, u2)
    ensures g1 == g2 && u1 == u2
  {
    IntToStringNoSep(g1, ':');
    IntToStringNoSep(u1, ':');
    IntToStringNoSep(g2, ':');
    IntToStringNoSep(u2, ':');
    assert Key(g1, u1) == Join([IntToString(g1), IntToString(u1)], ":");
    assert Key(g2, u2) == Join([IntToString(g2), IntToString(u2)], ":");
    JoinSplit([IntToString(g1), IntToString(u1)], ':');
    JoinSplit([IntToString(g2), IntToString(u2)], ':');
    ParseIntToString(g1);
    ParseIntToString(g2);
    ParseIntToString(u1);
    ParseIntToString(u2);
  }

  /** `content[:500] if content else ""`. */
  function StoredContent(content: Option<string>): (c: string)
    ensures |c| <= 500
    ensures content.Some? && |content.value| <= 500 ==> c == content.value
  {
    if content.None? || content.value == [] then "" else Take(content.value, 500)
  }

  /** How `mute_user` ends. */
  datatype MuteOutcome = Muted(minutes: nat) | NoDuration | TimeoutFailed

  class MuteManager {
    var violations: map<string, seq<ViolationRecord>>
    var activeMutes: map<int, MuteInfo>

    /** Starts from the saved history (an unreadable file gives an empty one). */
    constructor (saved: Option<map<string, seq<ViolationRecord>>>)
      ensures violations == (if saved.Some? then saved.value else map[])
      ensures activeMutes == map[]
    {
      violations := if saved.Some? then saved.value else map[];
      activeMutes := map[];
    }

    /** `get_user_violation_count`. */
    function ViolationCount(user: int, guild: int): nat
      reads this
    {
      var k := Key(guild, user);
      if k in violations then |violations[k]| else 0
    }

    /** `add_violation`: one record is appended under the user's key, and the result is the new
        count, which is one more than before; no other history changes. */
    method AddViolation(user: int, guild: int, categories: seq<string>, content: Option<string>, now: int)
      returns (count: nat)
      modifies this`violations
      ensures violations.Keys == old(violations).Keys + {Key(guild, user)}
      ensures violations[Key(guild, user)]
              == old(ViolationsOf(guild, user)) + [ViolationRecord(now, categories, StoredContent(content))]
      ensures forall k :: k in old(violations) && k != Key(guild, user) ==> violations[k] == old(violations)[k]
      ensures count == ViolationCount(user, guild) == old(ViolationCount(user, guild)) + 1
    {
      var k := Key(guild, user);
      if k !in violations {
        violations := violations[k := []];
      }
      violations := violations[k := violations[k] + [ViolationRecord(now, categories, StoredContent(content))]];
      count := |violations[k]|;
    }

    function ViolationsOf(guild: int, user: int): seq<ViolationRecord>
      reads this
    {
      var k := Key(guild, user);
      if k in violations then violations[k] else []
    }

    /** `mute_user`: the violation is always recorded; the mute lasts the ladder's minutes for
        the new count (never zero, since the count is at least one). When the timeout call is
        refused nothing else changes; otherwise the mute is tracked until `now` plus the
        duration. */
    method MuteUser(user: int, guild: int, categories: seq<string>, content: Option<string>, now: int, timeoutFails: bool)
      returns (outcome: MuteOutcome)
      modifies this`violations, this`activeMutes
      ensures violations.Keys == old(violations).Keys + {Key(guild, user)}
      ensures violations[Key(guild, user)]
              == old(ViolationsOf(guild, user)) + [ViolationRecord(now, categories, StoredContent(content))]
      ensures forall k :: k in old(violations) && k != Key(guild, user) ==> violations[k] == old(violations)[k]
      ensures ViolationCount(user, guild) == old(ViolationCount(user, guild)) + 1
      ensures outcome != NoDuration
      ensures timeoutFails ==> outcome == TimeoutFailed && activeMutes == old(activeMutes)
      ensures !timeoutFails ==>
        var n := ViolationCount(user, guild);
        && outcome == Muted(MuteDuration(n))
        && activeMutes == old(activeMutes)[user := MuteInfo(guild, now + 60 * MuteDuration(n), n, categories)]
    {
      var count := AddViolation(user, guild, categories, content, now);
      var minutes := MuteDuration(count);
      if minutes <= 0 {
        return NoDuration;
      }
      if timeoutFails {
        return TimeoutFailed;
      }
      activeMutes := activeMutes[user := MuteInfo(guild, now + 60 * minutes, count, categories)];
      outcome := Muted(minutes);
    }

    /** `check_expired_mutes`: exactly the tracked mutes whose expiry is at or before `now`
        are dropped. */
    method CheckExpiredMutes(now: int) returns (expired: set<int>)
      modifies this`activeMutes
      ensures expired == set u | u in old(activeMutes) && old(activeMutes)[u].expiresAt <= now
      ensures activeMutes.Keys == old(activeMutes).Keys - expired
      ensures forall u :: u in activeMutes ==> activeMutes[u] == old(activeMutes)[u] && activeMutes[u].expiresAt > now
    {
      expired := set u | u in activeMutes && activeMutes[u].expiresAt <= now;
      activeMutes := map u | u in activeMutes && u !in expired :: activeMutes[u];
    }

    /** `remove_mute`: a refused timeout call changes nothing and reports failure; otherwise the
        tracking entry is dropped. */
    method RemoveMute(user: int, timeoutFails: bool) returns (ok: bool)
      modifies this`activeMutes
      ensures ok <==> !timeoutFails
      ensures ok ==> activeMutes == old(activeMutes) - {user}
      ensures !ok ==> activeMutes == old(activeMutes)
    {
      if timeoutFails {
        return false;
      }
      if user in activeMutes {
        activeMutes := activeMutes - {user};
      }
      ok := true;
    }

    predicate IsUserMuted(user: int)
      reads this
    {
      user in activeMutes
    }

    function GetMuteInfo(user: int): Option<MuteInfo>
      reads this
    {
      if user in activeMutes then Some(activeMutes[user]) else None
    }

    /** `clear_user_violations`: true and the key removed exactly when it was there; otherwise
        false and nothing changes. */
    method ClearUserViolations(user: int, guild: int) returns (cleared: bool)
      modifies this`violations
      ensures cleared <==> Key(guild, user) in old(violations)
      ensures violations == old(violations) - {Key(guild, user)}
      ensures ViolationCount(user, guild) == 0
    {
      var k := Key(guild, user);
      if k in violations {
        violations := violations - {k};
        return true;
      }
      return false;
    }
  }
}
