/** The progressive mute ladder shared by the two moderation stores: the configured table of
    minutes by violation count, the duration lookup, and the mute record's minutes and expiry. */
module MuteLadder {
  import opened Common

  /** `MUTE_DURATIONS`: minutes of mute for the first five violation counts. */
  const MuteDurations: map<int, nat> := map[1 := 5, 2 := 720, 3 := 10080, 4 := 10080, 5 := 40320]

  /** `max(MUTE_DURATIONS.keys())`. */
  const MaxListedCount: int := 5

  lemma MaxListedCountIsMaxKey()
    ensures MaxListedCount in MuteDurations
    ensures forall k :: k in MuteDurations ==> k <= MaxListedCount
  {
  }

  /** `calculate_mute_duration` in minutes: the table entry for a listed count, the largest
      key's entry above it, and no mute (None) otherwise. */
  function CalculateMuteDuration(count: int): (m: Option<nat>)
  {
    if count in MuteDurations then Some(MuteDurations[count])
    else if count > MaxListedCount then Some(MuteDurations[MaxListedCount])
    else None
  }

  /** There is no mute exactly for counts of zero or below; every mute lasts between 5 minutes
      and 28 days, and the ladder never goes down. */
  lemma CalculateMuteDurationShape(count: int, later: int)
    ensures CalculateMuteDuration(count).None? <==> count <= 0
    ensures CalculateMuteDuration(count).Some? ==> 5 <= CalculateMuteDuration(count).value <= 40320
    ensures count > MaxListedCount ==> CalculateMuteDuration(count) == Some(40320)
    ensures 1 <= count <= later ==> CalculateMuteDuration(count).value <= CalculateMuteDuration(later).value
  {
  }

  /** Python's `int(x / 60)`: the quotient truncated toward zero. */
  function TruncDiv60(x: int): (q: int)
    ensures x >= 0 ==> q == x / 60
    ensures x < 0 ==> q == -((-x) / 60)
  {
    if x >= 0 then x / 60 else -((-x) / 60)
  }

  /** The minutes and the expiry stored with a mute. */
  datatype MuteWindow = MuteWindow(durationMinutes: Option<int>, expiresAt: Option<int>)

  /** `add_mute`'s duration rule, in seconds: without a given duration the ladder's applies; a
      missing or zero duration stores neither minutes nor expiry; otherwise the minutes are the
      seconds over 60 truncated, and the expiry is `now` plus the duration. */
  function Window(count: int, duration: Option<int>, now: int): (w: MuteWindow)
    ensures (w.durationMinutes.None? <==> w.expiresAt.None?)
  {
    var d := if duration.Some? then duration
             else if CalculateMuteDuration(count).Some? then Some(60 * CalculateMuteDuration(count).value)
             else None;
    if d.Some? && d.value != 0 then MuteWindow(Some(TruncDiv60(d.value)), Some(now + d.value))
    else MuteWindow(None, None)
  }

  /** Without a given duration, a positive count gets exactly the ladder's minutes and an
      expiry that many minutes after `now`; a count of zero or below gets no window. */
  lemma WindowFollowsLadder(count: int, now: int)
    ensures count <= 0 ==> Window(count, None, now) == MuteWindow(None, None)
    ensures count >= 1 ==>
      && CalculateMuteDuration(count).Some?
      && Window(count, None, now).durationMinutes == Some(CalculateMuteDuration(count).value as int)
      && Window(count, None, now).expiresAt == Some(now + 60 * CalculateMuteDuration(count).value)
  {
    CalculateMuteDurationShape(count, count);
  }
}
