/** Meeting room names and human-readable durations. */
module MeetingUtils {
  import opened Common

  // ---------------------------------------------------------------------------
  // Durations

  datatype Hms = Hms(hours: int, minutes: int, seconds: int)

  /** `hours = s // 3600`, `minutes = (s % 3600) // 60`, `seconds = s % 60`. With a positive
      divisor Dafny's division is Python's floor division, so this holds for negative `s` too. */
  function Decompose(s: int): (d: Hms)
    ensures d.hours * 3600 + d.minutes * 60 + d.seconds == s
    ensures 0 <= d.minutes < 60 && 0 <= d.seconds < 60
    ensures s >= 0 ==> d.hours >= 0
  {
    var r := s % 3600;
    assert s == 3600 * (s / 3600) + r;
    assert r == 60 * (r / 60) + r % 60;
    assert s == 60 * (60 * (s / 3600) + r / 60) + r % 60;
    assert s % 60 == r % 60;
    Hms(s / 3600, r / 60, s % 60)
  }

  const HoursUnit: string := "小時"
  const MinutesUnit: string := "分鐘"
  const SecondsUnit: string := "秒"

  /** `format_duration`: hours are shown only when positive, minutes when hours or minutes are
      positive, seconds always. */
  function FormatDuration(s: int): (r: string)
  {
    Render(Decompose(s))
  }

  /** The text for hours, minutes and seconds. */
  function Render(d: Hms): string
    requires d.minutes >= 0 && d.seconds >= 0
  {
    if d.hours > 0 then
      Join([NatToString(d.hours) + HoursUnit, NatToString(d.minutes) + MinutesUnit, NatToString(d.seconds) + SecondsUnit], " ")
    else if d.minutes > 0 then
      Join([NatToString(d.minutes) + MinutesUnit, NatToString(d.seconds) + SecondsUnit], " ")
    else NatToString(d.seconds) + SecondsUnit
  }

  /** Reads one space-free piece `<digits><unit>`. */
  function ParsePart(p: string, unit: string): (n: Option<nat>)
  {
    if EndsWith(p, unit) && AllDigits(p[..|p| - |unit|]) then Some(ParseDigits(p[..|p| - |unit|])) else None
  }

  /** Reads a duration written as `format_duration` writes it back into seconds. */
  function ParseDuration(t: string): (r: Option<int>)
  {
    ParseParts(Split(t, ' '))
  }

  function Seconds(h: int, m: int, s: int): int {
    h * 3600 + m * 60 + s
  }

  function ParseParts(parts: seq<string>): (r: Option<int>)
    requires |parts| >= 1
  {
    if |parts| == 3 then
      var h := ParsePart(parts[0], HoursUnit);
      var m := ParsePart(parts[1], MinutesUnit);
      var s := ParsePart(parts[2], SecondsUnit);
      if h.Some? && m.Some? && s.Some? then Some(Seconds(h.value, m.value, s.value)) else None
    else if |parts| == 2 then
      var m := ParsePart(parts[0], MinutesUnit);
      var s := ParsePart(parts[1], SecondsUnit);
      if m.Some? && s.Some? then Some(Seconds(0, m.value, s.value)) else None
    else
      var s := ParsePart(parts[0], SecondsUnit);
      if s.Some? then Some(s.value) else None
  }

  lemma PartRoundTrip(n: nat, unit: string)
    requires forall i :: 0 <= i < |unit| ==> !IsDigit(unit[i]) && unit[i] != ' '
    ensures ParsePart(NatToString(n) + unit, unit) == Some(n)
    ensures ' ' !in NatToString(n) + unit
  {
    var p := NatToString(n) + unit;
    assert p[..|p| - |unit|] == NatToString(n);
    assert p[|p| - |unit|..] == unit;
    ParseNatToString(n);
    forall i | 0 <= i < |p| ensures p[i] != ' ' {
      if i < |NatToString(n)| {
        assert IsDigit(NatToString(n)[i]);
      } else {
        assert p[i] == unit[i - |NatToString(n)|];
      }
    }
  }

  lemma ParseThreeParts(h: nat, m: nat, sec: nat)
    ensures ParseDuration(Join([NatToString(h) + HoursUnit, NatToString(m) + MinutesUnit, NatToString(sec) + SecondsUnit], " "))
            == Some(Seconds(h, m, sec))
  {
    var parts := [NatToString(h) + HoursUnit, NatToString(m) + MinutesUnit, NatToString(sec) + SecondsUnit];
    PartRoundTrip(h, HoursUnit);
    PartRoundTrip(m, MinutesUnit);
    PartRoundTrip(sec, SecondsUnit);
    JoinSplit(parts, ' ');
    assert Split(Join(parts, " "), ' ') == parts;
    assert ParsePart(parts[0], HoursUnit) == Some(h);
    assert ParsePart(parts[1], MinutesUnit) == Some(m);
    assert ParsePart(parts[2], SecondsUnit) == Some(sec);
  }

  lemma ParseTwoParts(m: nat, sec: nat)
    ensures ParseDuration(Join([NatToString(m) + MinutesUnit, NatToString(sec) + SecondsUnit], " ")) == Some(Seconds(0, m, sec))
  {
    var parts := [NatToString(m) + MinutesUnit, NatToString(sec) + SecondsUnit];
    PartRoundTrip(m, MinutesUnit);
    PartRoundTrip(sec, SecondsUnit);
    JoinSplit(parts, ' ');
    assert Split(Join(parts, " "), ' ') == parts;
  }

  lemma ParseOnePart(sec: nat)
    ensures ParseDuration(NatToString(sec) + SecondsUnit) == Some(sec)
  {
    PartRoundTrip(sec, SecondsUnit);
    JoinSplit([NatToString(sec) + SecondsUnit], ' ');
    assert Split(NatToString(sec) + SecondsUnit, ' ') == [NatToString(sec) + SecondsUnit];
  }

  /** The displayed text of a non-negative duration reads back as the same number of seconds. */
  lemma FormatDurationRoundTrip(s: int)
    requires s >= 0
    ensures ParseDuration(FormatDuration(s)) == Some(s)
  {
    RenderRoundTrip(Decompose(s));
  }

  lemma RenderRoundTrip(d: Hms)
    requires d.hours >= 0 && d.minutes >= 0 && d.seconds >= 0
    ensures ParseDuration(Render(d)) == Some(Seconds(d.hours, d.minutes, d.seconds))
  {
    var h, m, sec := NatToString(d.hours), NatToString(d.minutes), NatToString(d.seconds);
    if d.hours > 0 {
      assert Render(d) == Join([h + HoursUnit, m + MinutesUnit, sec + SecondsUnit], " ");
      ParseThreeParts(d.hours, d.minutes, d.seconds);
    } else if d.minutes > 0 {
      assert Render(d) == Join([m + MinutesUnit, sec + SecondsUnit], " ");
      ParseTwoParts(d.minutes, d.seconds);
    } else {
      assert Render(d) == sec + SecondsUnit;
      ParseOnePart(d.seconds);
    }
  }

  /** For a non-negative duration the hours appear exactly from one hour on, and the minutes
      exactly from one minute on. */
  lemma FormatDurationUnits(s: int)
    requires s >= 0
    ensures |Split(FormatDuration(s), ' ')| == (if s >= 3600 then 3 else if s >= 60 then 2 else 1)
  {
    var d := Decompose(s);
    PartRoundTrip(d.hours as nat, HoursUnit);
    PartRoundTrip(d.minutes as nat, MinutesUnit);
    PartRoundTrip(d.seconds as nat, SecondsUnit);
    var hp := NatToString(d.hours as nat) + HoursUnit;
    var mp := NatToString(d.minutes as nat) + MinutesUnit;
    var sp := NatToString(d.seconds as nat) + SecondsUnit;
    if d.hours > 0 {
      JoinSplit([hp, mp, sp], ' ');
    } else if d.minutes > 0 {
      JoinSplit([mp, sp], ' ');
    } else {
      JoinSplit([sp], ' ');
    }
  }

  // ---------------------------------------------------------------------------
  // Room names

  /** Two zero-padded digits, as `%m`, `%d`, `%H` and `%M` print them. */
  function Pad2(n: nat): (r: string)
    requires n < 100
    ensures |r| == 2 && IsDigit(r[0]) && IsDigit(r[1])
    ensures ParseDigits(r) == n
  {
    var r := [DigitChar(n / 10), DigitChar(n % 10)];
    assert r[..1] == [DigitChar(n / 10)] && r[..1][..0] == [];
    assert ParseDigits(r[..1]) == n / 10;
    r
  }

  /** `generate_meeting_room_name` for the clock reading (month, day, hour, minute):
      `Meeting-MMDD-HHMM`, from which the four fields read back. */
  function MeetingRoomName(month: nat, day: nat, hour: nat, minute: nat): (r: string)
    requires 1 <= month <= 12 && 1 <= day <= 31 && hour < 24 && minute < 60
    ensures |r| == 17 && StartsWith(r, "Meeting-") && r[12] == '-'
    ensures forall i :: 8 <= i < 17 && i != 12 ==> IsDigit(r[i])
    ensures ParseDigits(r[8..10]) == month && ParseDigits(r[10..12]) == day
    ensures ParseDigits(r[13..15]) == hour && ParseDigits(r[15..17]) == minute
  {
    var r := "Meeting-" + Pad2(month) + Pad2(day) + "-" + Pad2(hour) + Pad2(minute);
    assert r[8..10] == Pad2(month) && r[10..12] == Pad2(day);
    assert r[13..15] == Pad2(hour) && r[15..17] == Pad2(minute);
    r
  }
}
