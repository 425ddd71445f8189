/** The daily invite report: the growth chart's day range and member-count series, the chart's
    tick spacing, the leaderboard's position and change labels, and when the next report is
    due. Dates are day numbers and clock times are seconds. */
module DailyReport {
  import opened Common

  // ---------------------------------------------------------------------------
  // Growth chart

  /** The chart covers the first event from its start to today or its end, whichever is first;
      nothing once today is past the end. Returns (last chart day, number of days). */
  function ChartSpan(startDay: int, endDay: int, today: int): (r: Option<(int, int)>)
    ensures r.None? <==> today > endDay
    ensures r.Some? ==> r.value.0 == Min(today, endDay) && r.value.0 <= endDay
    ensures r.Some? ==> r.value.1 == r.value.0 - startDay + 1
  {
    if today > endDay then None
    else
      var actualEnd := Min(today, endDay);
      Some((actualEnd, actualEnd - startDay + 1))
  }

  /** The estimated member count of chart day i of n: the current count less the joins since
      that day, never negative; the last day shows the current count itself. */
  function Estimate(current: int, joinsSince: seq<nat>, i: nat): (c: int)
    requires i < |joinsSince|
    ensures c >= 0 || (i == |joinsSince| - 1 && c == current)
    ensures 0 <= current ==> c <= current
  {
    if i == |joinsSince| - 1 then current else Max(0, current - joinsSince[i])
  }

  /** The estimates for the first k days. */
  function Estimates(current: int, joinsSince: seq<nat>, k: nat): (cs: seq<int>)
    requires k <= |joinsSince|
    ensures |cs| == k
    ensures forall i :: 0 <= i < k ==> cs[i] == Estimate(current, joinsSince, i)
  {
    if k == 0 then [] else Estimates(current, joinsSince, k - 1) + [Estimate(current, joinsSince, k - 1)]
  }

  /** The running maximum: each day shows the largest count so far. */
  function RunningMax(s: seq<int>): (r: seq<int>)
    ensures |r| == |s|
    decreases |s|
  {
    if |s| <= 1 then s
    else
      var r := RunningMax(s[..|s| - 1]);
      r + [Max(r[|s| - 2], s[|s| - 1])]
  }

  predicate NonDecreasing(s: seq<int>) {
    forall i, j :: 0 <= i <= j < |s| ==> s[i] <= s[j]
  }

  /** The clamped series never falls. */
  lemma {:induction false} RunningMaxMonotone(s: seq<int>)
    ensures NonDecreasing(RunningMax(s))
    decreases |s|
  {
    if |s| > 1 {
      RunningMaxMonotone(s[..|s| - 1]);
    }
  }

  /** Each day of the clamped series is at least every estimate up to that day. */
  lemma {:induction false} RunningMaxAbove(s: seq<int>)
    ensures forall i, j :: 0 <= j <= i < |s| ==> s[j] <= RunningMax(s)[i]
    decreases |s|
  {
    if |s| > 1 {
      var front := s[..|s| - 1];
      RunningMaxAbove(front);
      assert forall j :: 0 <= j < |front| ==> front[j] == s[j];
    }
  }

  /** Each day of the clamped series is one of the estimates up to that day. */
  lemma {:induction false} RunningMaxAttained(s: seq<int>)
    ensures forall i :: 0 <= i < |s| ==> RunningMax(s)[i] in s[..i + 1]
    decreases |s|
  {
    if |s| > 1 {
      var front := s[..|s| - 1];
      RunningMaxAttained(front);
      forall i | 0 <= i < |s| ensures RunningMax(s)[i] in s[..i + 1] {
        if i < |s| - 1 {
          assert front[..i + 1] == s[..i + 1];
        } else {
          assert RunningMax(front)[i - 1] in s[..i];
          assert s[..i] <= s[..i + 1];
        }
      }
    } else if |s| == 1 {
      assert s[..1] == s;
    }
  }

  /** With a non-negative member count, the chart ends at exactly the current count. */
  lemma ChartEndsAtCurrent(current: int, joinsSince: seq<nat>)
    requires 0 <= current && joinsSince != []
    ensures var r := RunningMax(Estimates(current, joinsSince, |joinsSince|)); r[|r| - 1] == current
  {
    var s := Estimates(current, joinsSince, |joinsSince|);
    RunningMaxAbove(s);
    RunningMaxAttained(s);
    assert s[..|s|] == s;
    assert s[|s| - 1] == current;
  }

  /** The clamp loop of `generate_growth_chart`, in place on the series. */
  method ClampRunningMax(counts: seq<int>) returns (r: seq<int>)
    ensures r == RunningMax(counts)
  {
    r := counts;
    if |r| <= 1 {
      return;
    }
    var i := 1;
    while i < |r|
      invariant 1 <= i <= |r| && |r| == |counts|
      invariant r[..i] == RunningMax(counts[..i])
      invariant r[i..] == counts[i..]
    {
      ghost var prev := r;
      if r[i] < r[i - 1] {
        r := r[i := r[i - 1]];
      }
      assert counts[..i + 1][..i] == counts[..i];
      assert prev[i] == counts[i];
      assert r[i] == Max(prev[i - 1], counts[i]);
      assert r[..i + 1] == prev[..i] + [r[i]];
      assert r[i + 1..] == prev[i + 1..] == counts[i + 1..];
      i := i + 1;
    }
    assert counts[..|r|] == counts;
  }

  /** `generate_growth_chart`'s data: None when the event has ended or the span holds no day;
      otherwise the estimated counts for each day of the span, clamped to a running maximum.
      `joinsSince[i]` is the number of active invite records joined since day `startDay + i`. */
  method GrowthSeries(startDay: int, endDay: int, today: int, current: int, joinsSince: seq<nat>) returns (series: Option<seq<int>>)
    requires ChartSpan(startDay, endDay, today).Some? ==> |joinsSince| == Max(0, ChartSpan(startDay, endDay, today).value.1)
    ensures series.None? <==> today > endDay || startDay > Min(today, endDay)
    ensures series.Some? ==> series.value == RunningMax(Estimates(current, joinsSince, |joinsSince|))
    ensures series.Some? ==> |series.value| == Min(today, endDay) - startDay + 1 && NonDecreasing(series.value)
  {
    var span := ChartSpan(startDay, endDay, today);
    if span.None? {
      return None;
    }
    var counts := EstimateCounts(startDay, span.value.0, current, joinsSince);
    var clamped := ClampRunningMax(counts);
    if clamped == [] {
      return None;
    }
    RunningMaxMonotone(counts);
    series := Some(clamped);
  }

  /** The estimate loop of `generate_growth_chart`, one count per day from the first day to the
      last. */
  method EstimateCounts(startDay: int, actualEnd: int, current: int, joinsSince: seq<nat>) returns (counts: seq<int>)
    requires |joinsSince| == Max(0, actualEnd - startDay + 1)
    ensures counts == Estimates(current, joinsSince, |joinsSince|)
  {
    counts := [];
    var day := startDay;
    while day <= actualEnd
      invariant startDay <= day <= Max(startDay, actualEnd + 1)
      invariant counts == Estimates(current, joinsSince, day - startDay)
      decreases actualEnd - day
    {
      var estimated := Max(0, current - joinsSince[day - startDay]);
      if day == actualEnd {
        estimated := current;
      }
      counts := counts + [estimated];
      day := day + 1;
    }
  }

  /** The day spacing of the chart's date ticks. */
  function TickInterval(totalDays: int): (k: int)
    ensures k >= 1
    ensures totalDays <= 7 ==> k == 1
    ensures 7 < totalDays <= 14 ==> k == 2
    ensures 14 < totalDays ==> k == Max(1, totalDays / (if totalDays <= 30 then 6 else 8))
  {
    if totalDays <= 7 then 1
    else if totalDays <= 14 then 2
    else if totalDays <= 30 then Max(1, totalDays / 6)
    else Max(1, totalDays / 8)
  }

  /** A chart of at most 30 days gets between 5 and 15 ticks (the interval fits 5 to 15 times
      in the span); a longer one gets 8 to 10. */
  lemma TickCount(totalDays: int)
    requires totalDays > 14
    ensures var k := TickInterval(totalDays);
      totalDays <= 30 ==> 5 * k <= totalDays < 16 * k
    ensures var k := TickInterval(totalDays);
      totalDays > 30 ==> 8 * k <= totalDays < 11 * k
  {
  }

  // ---------------------------------------------------------------------------
  // Leaderboard labels

  const Medals: seq<string> := ["🥇", "🥈", "🥉"]

  /** The position shown for the i-th (0-based) inviter: a medal for the first three, then the
      1-based rank in backquotes. */
  function PositionLabel(i: nat): (s: string)
    ensures i < 3 ==> s == Medals[i]
    ensures i >= 3 ==> s == "`" + NatToString(i + 1) + ".`"
  {
    if i < 3 then Medals[i] else "`" + NatToString(i + 1) + ".`"
  }

  /** Different ranks are labelled differently. */
  lemma PositionLabelsDistinct(i: nat, j: nat)
    requires i != j
    ensures PositionLabel(i) != PositionLabel(j)
  {
    if i >= 3 && j >= 3 {
      RankLabelsDistinct(i + 1, j + 1);
    } else if i >= 3 {
      assert |PositionLabel(i)| >= 4 && |PositionLabel(j)| == 1;
    } else if j >= 3 {
      assert |PositionLabel(j)| >= 4 && |PositionLabel(i)| == 1;
    }
  }

  lemma RankLabelsDistinct(a: nat, b: nat)
    requires a != b
    ensures "`" + NatToString(a) + ".`" != "`" + NatToString(b) + ".`"
  {
    var x := NatToString(a);
    var y := NatToString(b);
    ParseNatToString(a);
    ParseNatToString(b);
    assert ("`" + x + ".`")[1..|x| + 1] == x;
    assert ("`" + y + ".`")[1..|y| + 1] == y;
  }

  /** The change indicator for today's invites against yesterday's. */
  function ChangeLabel(today: int, yesterday: int): (s: string)
    ensures today > yesterday ==> s == " `(+" + IntToString(today - yesterday) + ")`"
    ensures today < yesterday ==> s == " `(" + IntToString(today - yesterday) + ")`"
    ensures today == yesterday ==> s == " `(=)`"
  {
    var d := today - yesterday;
    if d > 0 then " `(+" + IntToString(d) + ")`"
    else if d < 0 then " `(" + IntToString(d) + ")`"
    else " `(=)`"
  }

  /** The label gives back the change: the text after "(" or "(+" parses to today - yesterday. */
  lemma ChangeLabelRoundTrip(today: int, yesterday: int)
    requires today != yesterday
    ensures var s := ChangeLabel(today, yesterday);
      var body := if today > yesterday then s[4..|s| - 2] else s[3..|s| - 2];
      ParseInt(body) == Some(today - yesterday)
  {
    var d := today - yesterday;
    var s := ChangeLabel(today, yesterday);
    if d > 0 {
      assert s[4..|s| - 2] == IntToString(d);
    } else {
      assert s[3..|s| - 2] == IntToString(d);
    }
    ParseIntToString(d);
  }

  // ---------------------------------------------------------------------------
  // get_next_report_time

  const DaySeconds: int := 86400

  /** `get_next_report_time`: with `nowLocal` the current time on the report's clock, the next
      report is today's HH:MM when that is strictly later, else the same time tomorrow, returned
      in UTC. No time, a time that is not "H:M" with integer parts, or an hour or minute outside
      the clock gives None. */
  function NextReportTime(schedule: Option<string>, nowLocal: int, utcOffset: int): (r: Option<int>)
    ensures r.Some? ==> nowLocal < r.value + utcOffset <= nowLocal + DaySeconds
  {
    if schedule.None? || schedule.value == "" then None
    else
      var parts := Split(schedule.value, ':');
      if |parts| != 2 then None
      else
        var h := ParseInt(parts[0]);
        var m := ParseInt(parts[1]);
        if h.None? || m.None? || !(0 <= h.value < 24) || !(0 <= m.value < 60) then None
        else Some(NextAt(nowLocal, h.value, m.value) - utcOffset)
  }

  /** The first HH:MM strictly after `nowLocal`. */
  function NextAt(nowLocal: int, hour: int, minute: int): (t: int)
    requires 0 <= hour < 24 && 0 <= minute < 60
    ensures nowLocal < t <= nowLocal + DaySeconds
    ensures t % DaySeconds == hour * 3600 + minute * 60
  {
    var todayAt := nowLocal - nowLocal % DaySeconds + hour * 3600 + minute * 60;
    if todayAt <= nowLocal then todayAt + DaySeconds else todayAt
  }

  /** NextAt is the earliest such time: no HH:MM strictly after now comes before it. */
  lemma NextAtIsFirst(nowLocal: int, hour: int, minute: int, t: int)
    requires 0 <= hour < 24 && 0 <= minute < 60
    requires nowLocal < t && t % DaySeconds == hour * 3600 + minute * 60
    ensures NextAt(nowLocal, hour, minute) <= t
  {
    var n := NextAt(nowLocal, hour, minute);
    assert (t - n) % DaySeconds == 0;
    assert t - n > -DaySeconds;
  }
}
