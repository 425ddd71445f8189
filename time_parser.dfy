// The meeting time parser: a few fixed Chinese patterns ("明天3點", "今天下午", ...) are read
// directly; anything else goes to the AI, whose answer is checked and moved into the future.
// Times are wall-clock seconds in the bot's configured time zone.

module TimeParser {
  import opened Common

  const DaySeconds := 86400
  const YearDays := 365

  /** The start of the day holding wall-clock second t. */
  function DayStart(t: int): (s: int)
    ensures s <= t < s + DaySeconds && s % DaySeconds == 0
  {
    (t / DaySeconds) * DaySeconds
  }

  // ---------------------------------------------------------------------------
  // Patterns

  datatype Day = Today | Tomorrow | DayAfterTomorrow

  function DayWord(d: Day): (w: string)
    ensures |w| == 2
  {
    match d
    case Today => "今天"
    case Tomorrow => "明天"
    case DayAfterTomorrow => "後天"
  }

  function DayOffset(d: Day): nat {
    match d
    case Today => 0
    case Tomorrow => 1
    case DayAfterTomorrow => 2
  }

  /** `<day>\s*(\d{1,2})[點点]\s*(\d{1,2})?[分]?` or `<day>\s*(早上|上午|中午|下午|傍晚|晚上)`. */
  datatype Pattern = ClockPattern(day: Day) | PeriodPattern(day: Day)

  /** The patterns in the order they are tried. */
  const Patterns: seq<Pattern> := [
    ClockPattern(Tomorrow), PeriodPattern(Tomorrow),
    ClockPattern(Today), PeriodPattern(Today),
    ClockPattern(DayAfterTomorrow), PeriodPattern(DayAfterTomorrow)]

  const PeriodWords: seq<string> := ["早上", "上午", "中午", "下午", "傍晚", "晚上"]

  /** The hour a period word stands for; 14 for any other word. */
  function PeriodHour(period: string): (h: nat)
    ensures h < 24
  {
    if period == "早上" || period == "上午" then 9
    else if period == "中午" then 12
    else if period == "下午" then 14
    else if period == "傍晚" then 17
    else if period == "晚上" then 19
    else 14
  }

  /** What a pattern captured. */
  datatype Capture = Clock(hour: nat, minute: Option<nat>) | Period(word: string)

  function SkipSpace(text: string, i: nat): (j: nat)
    requires i <= |text|
    ensures i <= j <= |text|
    ensures forall k :: i <= k < j ==> IsSpace(text[k])
    ensures j == |text| || !IsSpace(text[j])
    decreases |text| - i
  {
    if i < |text| && IsSpace(text[i]) then SkipSpace(text, i + 1) else i
  }

  predicate HourMark(c: char) {
    c == '點' || c == '点'
  }

  function DigitValue(c: char): nat
    requires IsDigit(c)
  {
    c as int - '0' as int
  }

  /** `(\d{1,2})[點点]` at j: two digits if they are followed by the mark, else one. Gives the
      hour and the index after the mark. */
  function HourAt(text: string, j: nat): (r: Option<(nat, nat)>)
    requires j <= |text|
    ensures r.Some? ==> j + 2 <= r.value.1 <= |text| && r.value.0 < 100
  {
    if j + 2 < |text| && IsDigit(text[j]) && IsDigit(text[j + 1]) && HourMark(text[j + 2]) then
      Some((10 * DigitValue(text[j]) + DigitValue(text[j + 1]), j + 3))
    else if j + 1 < |text| && IsDigit(text[j]) && HourMark(text[j + 1]) then
      Some((DigitValue(text[j]), j + 2))
    else None
  }

  /** `\s*(\d{1,2})?`: up to two digits after optional whitespace, taken greedily. */
  function MinuteAt(text: string, k: nat): (m: Option<nat>)
    requires k <= |text|
    ensures m.Some? ==> m.value < 100
  {
    var j := SkipSpace(text, k);
    if j + 1 < |text| && IsDigit(text[j]) && IsDigit(text[j + 1]) then
      Some(10 * DigitValue(text[j]) + DigitValue(text[j + 1]))
    else if j < |text| && IsDigit(text[j]) then Some(DigitValue(text[j]))
    else None
  }

  /** The first period word at j, in the alternation's order. */
  function PeriodAt(text: string, j: nat, words: seq<string>): (r: Option<string>)
    requires j <= |text|
    ensures r.Some? ==> r.value in words && OccursAt(text, r.value, j)
  {
    if words == [] then None
    else if OccursAt(text, words[0], j) then Some(words[0])
    else PeriodAt(text, j, words[1..])
  }

  /** The pattern matched at position i. */
  function MatchAt(p: Pattern, text: string, i: nat): (r: Option<Capture>)
    requires i <= |text|
    ensures r.Some? ==> OccursAt(text, DayWord(p.day), i)
    ensures r.Some? && p.ClockPattern? ==>
      (r.value.Clock? && r.value.hour < 100 && (r.value.minute.Some? ==> r.value.minute.value < 100))
    ensures r.Some? && p.PeriodPattern? ==> r.value.Period? && r.value.word in PeriodWords
  {
    if !OccursAt(text, DayWord(p.day), i) then None
    else
      var j := SkipSpace(text, i + 2);
      match p
      case ClockPattern(_) =>
        (match HourAt(text, j)
         case None => None
         case Some(hk) => Some(Clock(hk.0, MinuteAt(text, hk.1))))
      case PeriodPattern(_) =>
        (match PeriodAt(text, j, PeriodWords)
         case None => None
         case Some(w) => Some(Period(w)))
  }

  /** `re.search`: the match at the leftmost position where there is one. */
  function Search(p: Pattern, text: string, i: nat): (r: Option<Capture>)
    requires i <= |text|
    ensures r.Some? ==> exists k :: i <= k <= |text| && MatchAt(p, text, k) == r
    ensures r.None? ==> forall k :: i <= k <= |text| ==> MatchAt(p, text, k).None?
    decreases |text| - i
  {
    var m := MatchAt(p, text, i);
    if m.Some? || i == |text| then m else Search(p, text, i + 1)
  }

  // ---------------------------------------------------------------------------
  // Results

  /** A `parsed_time` value: missing or empty, not ISO 8601, an ISO time without an offset
      (read as wall-clock seconds), or one with an offset (as wall-clock seconds here). */
  datatype IsoTime = NoTime | Unparsable | Naive(wall: int) | Aware(wall: int)

  /** The fields of the result dictionary the bot reads. */
  datatype TimeResult = TimeResult(parsedTime: IsoTime, confidence: int, interpretedAs: string,
                                   ambiguous: bool, error: Option<string>)

  const ClockConfidence := 90
  const PeriodConfidence := 85
  const AcceptConfidence := 70

  /** The time at hour:minute on the day `offset` days after now's. */
  function At(now: int, offset: nat, hour: nat, minute: nat): int {
    DayStart(now) + offset * DaySeconds + hour * 3600 + minute * 60
  }

  /** A time of today's that is not after now is taken as tomorrow's. */
  function RollForward(t: int, now: int): (r: int)
    requires DayStart(now) <= t < DayStart(now) + DaySeconds
    ensures now < r <= now + DaySeconds
    ensures r == t || r == t + DaySeconds
  {
    if t <= now then t + DaySeconds else t
  }

  /** `replace` accepts the captured time: an hour up to 23 and a minute up to 59. */
  predicate Accepted(c: Capture) {
    c.Period? || (c.hour <= 23 && (c.minute.None? || c.minute.value <= 59))
  }

  /** The parser of a matched pattern; None where `replace` raises for an hour above 23 or a
      minute above 59. */
  function Apply(p: Pattern, c: Capture, now: int): (r: Option<TimeResult>)
    requires p.ClockPattern? <==> c.Clock?
    ensures r.Some? ==> r.value.parsedTime.Naive? && !r.value.ambiguous && r.value.error.None?
    ensures r.Some? ==> r.value.confidence == if p.ClockPattern? then ClockConfidence else PeriodConfidence
    ensures r.Some? <==> Accepted(c)
  {
    match c
    case Clock(hour, minute) =>
      var m := if minute.Some? then minute.value else 0;
      if hour > 23 || m > 59 then None
      else
        var t := At(now, DayOffset(p.day), hour, m);
        var t' := if p.day == Today then RollForward(t, now) else t;
        var word := if p.day == Today && t' != t then DayWord(Tomorrow) else DayWord(p.day);
        Some(TimeResult(Naive(t'), ClockConfidence,
                        word + NatToString(hour) + "點" + NatToString(m) + "分", false, None))
    case Period(word) =>
      var hour := PeriodHour(word);
      var t := At(now, DayOffset(p.day), hour, 0);
      var t' := if p.day == Today then RollForward(t, now) else t;
      var dayWord := if p.day == Today && t' != t then DayWord(Tomorrow) else DayWord(p.day);
      Some(TimeResult(Naive(t'), PeriodConfidence, dayWord + word + NatToString(hour) + "點", false, None))
  }

  /** The pattern matches and its parser does not raise. */
  predicate Succeeds(p: Pattern, text: string) {
    var m := Search(p, text, 0);
    m.Some? && (p.ClockPattern? <==> m.value.Clock?) && Accepted(m.value)
  }

  /** The index of the first of `ps` that succeeds, or |ps|. */
  function FirstSuccess(text: string, ps: seq<Pattern>): (k: nat)
    ensures k <= |ps|
    ensures k < |ps| ==> Succeeds(ps[k], text)
    ensures forall j :: 0 <= j < k ==> !Succeeds(ps[j], text)
  {
    if ps == [] || Succeeds(ps[0], text) then 0
    else 1 + FirstSuccess(text, ps[1..])
  }

  /** `_try_pattern_matching`: the result of the first pattern that matches and whose parser
      does not raise. */
  function TryPatterns(text: string, now: int): (r: Option<TimeResult>)
    ensures r.None? <==> forall j :: 0 <= j < |Patterns| ==> !Succeeds(Patterns[j], text)
    ensures r.Some? ==>
      exists k :: (0 <= k < |Patterns| && Succeeds(Patterns[k], text)
        && r == Apply(Patterns[k], Search(Patterns[k], text, 0).value, now)
        && forall j :: 0 <= j < k ==> !Succeeds(Patterns[j], text))
  {
    var k := FirstSuccess(text, Patterns);
    if k == |Patterns| then None
    else
      var p := Patterns[k];
      Apply(p, Search(p, text, 0).value, now)
  }

  /** A pattern result always clears the 70 threshold, so it is never sent to the AI. */
  lemma PatternResultAccepted(text: string, now: int)
    ensures TryPatterns(text, now).Some? ==> TryPatterns(text, now).value.confidence > AcceptConfidence
  {
  }

  /** A "today" time always lies within the next day; "tomorrow" and "the day after" lie on
      the day one or two days after now's. */
  lemma PatternTimes(p: Pattern, c: Capture, now: int)
    requires p.ClockPattern? <==> c.Clock?
    requires Apply(p, c, now).Some?
    ensures var t := Apply(p, c, now).value.parsedTime.wall;
      (p.day == Today ==> now < t <= now + DaySeconds)
      && (p.day != Today ==> DayStart(t) == DayStart(now) + DayOffset(p.day) * DaySeconds)
  {
    var t := Apply(p, c, now).value.parsedTime.wall;
    var s := DayStart(now) + DayOffset(p.day) * DaySeconds;
    if p.day != Today {
      assert s <= t < s + DaySeconds;
      assert s % DaySeconds == 0;
      DayStartOf(t, s);
    }
  }

  lemma DayStartOf(t: int, s: int)
    requires s % DaySeconds == 0 && s <= t < s + DaySeconds
    ensures DayStart(t) == s
  {
    var q := s / DaySeconds;
    assert s == q * DaySeconds;
    assert t / DaySeconds == q;
  }

  /** The period words stand for 9, 9, 12, 14, 17 and 19 o'clock. */
  lemma PeriodHours()
    ensures PeriodHour("早上") == 9 && PeriodHour("上午") == 9 && PeriodHour("中午") == 12
    ensures PeriodHour("下午") == 14 && PeriodHour("傍晚") == 17 && PeriodHour("晚上") == 19
  {
  }

  // ---------------------------------------------------------------------------
  // Checking the AI's answer

  /** The first time `t + k` days (k >= 0) that is after now. */
  function NextAfter(t: int, now: int): (r: int)
    ensures r > now && r - DaySeconds <= Max(now, t - DaySeconds)
    ensures (r - t) % DaySeconds == 0 && r >= t
  {
    if t > now then t else t + ((now - t) / DaySeconds + 1) * DaySeconds
  }

  /** The adjustment loop: add one day until the time is after now. */
  method AdvanceToFuture(t: int, now: int) returns (r: int)
    ensures r == NextAfter(t, now)
  {
    r := t;
    while r <= now
      invariant r >= t && (r - t) % DaySeconds == 0 && r - DaySeconds <= Max(now, t - DaySeconds)
      decreases now - r
    {
      r := r + DaySeconds;
    }
    NextAfterUnique(t, now, r);
  }

  /** Only one time t + k days is after now with the day before it not. */
  lemma NextAfterUnique(t: int, now: int, r: int)
    requires r >= t && (r - t) % DaySeconds == 0 && r > now && r - DaySeconds <= Max(now, t - DaySeconds)
    ensures r == NextAfter(t, now)
  {
    var n := NextAfter(t, now);
    var a := (r - t) / DaySeconds;
    var b := (n - t) / DaySeconds;
    assert r == t + a * DaySeconds && n == t + b * DaySeconds;
  }

  /** The adjustment and the one-year check on a time the comparison accepted. */
  function Checked(reply: TimeResult, wall: int, now: int): (r: TimeResult)
    requires reply.parsedTime == Naive(wall) || reply.parsedTime == Aware(wall)
    ensures (r.parsedTime.Naive? || r.parsedTime.Aware?) && r.parsedTime.wall == NextAfter(wall, now)
  {
    var t := NextAfter(wall, now);
    var moved := reply.(parsedTime := if t != wall then Naive(t) else reply.parsedTime,
                        interpretedAs := if t != wall then reply.interpretedAs + " (已調整至未來時間)"
                                         else reply.interpretedAs);
    if t > now + YearDays * DaySeconds then moved.(confidence := Max(0, reply.confidence - 30), ambiguous := true)
    else moved
  }

  /** The failure path of the check: confidence 0 and an error, the rest kept. */
  function CheckFailed(reply: TimeResult): (r: TimeResult)
    ensures r.confidence == 0 && r.error.Some?
  {
    reply.(confidence := 0, error := Some("時間格式驗證失敗"))
  }

  /** `_validate_parsed_time` as written: comparing an offset-less time with the aware
      current time raises, so such a time fails the check. */
  function ValidateAsWritten(reply: TimeResult, now: int): (r: TimeResult)
    ensures !reply.parsedTime.Naive? ==> r == Validate(reply, now)
    ensures reply.parsedTime.Naive? ==> r.confidence == 0 && r.error.Some? && r.parsedTime == reply.parsedTime
  {
    match reply.parsedTime
    case NoTime => reply
    case Unparsable => CheckFailed(reply)
    case Naive(_) => CheckFailed(reply)
    case Aware(wall) => Checked(reply, wall, now)
  }

  /** `_validate_parsed_time` as evidently meant: an offset-less time is read in the bot's
      time zone. */
  function Validate(reply: TimeResult, now: int): (r: TimeResult)
    ensures reply.parsedTime.NoTime? ==> r == reply
    ensures reply.parsedTime.Unparsable? ==> r.confidence == 0 && r.error.Some?
    ensures reply.parsedTime.Naive? || reply.parsedTime.Aware? ==>
      (r.parsedTime.Naive? || r.parsedTime.Aware?) && r.parsedTime.wall > now && r.error == reply.error
  {
    match reply.parsedTime
    case NoTime => reply
    case Unparsable => CheckFailed(reply)
    case Naive(wall) => Checked(reply, wall, now)
    case Aware(wall) => Checked(reply, wall, now)
  }

  /** Every answer in the format the AI is told to use is rejected with confidence 0 as
      written, and moved after now as meant. */
  lemma NaiveAnswerRejected(reply: TimeResult, wall: int, now: int)
    requires reply.parsedTime == Naive(wall)
    ensures ValidateAsWritten(reply, now).confidence == 0 && ValidateAsWritten(reply, now).error.Some?
    ensures Validate(reply, now).parsedTime.Naive? || Validate(reply, now).parsedTime.Aware?
    ensures Validate(reply, now).parsedTime.wall > now
  {
  }

  /** The one-year check: more than 365 days ahead lowers the confidence by 30 (not below 0)
      and marks the answer ambiguous; otherwise both are kept. */
  lemma FarFuturePenalty(reply: TimeResult, wall: int, now: int)
    requires reply.parsedTime == Naive(wall) || reply.parsedTime == Aware(wall)
    ensures var r := Validate(reply, now);
      if NextAfter(wall, now) > now + YearDays * DaySeconds
      then r.confidence == Max(0, reply.confidence - 30) && r.ambiguous
      else r.confidence == reply.confidence && r.ambiguous == reply.ambiguous
  {
  }

  /** The imperative check: the loop above, then the one-year penalty. */
  method ValidateParsedTime(reply: TimeResult, now: int) returns (r: TimeResult)
    ensures r == Validate(reply, now)
  {
    r := reply;
    if reply.parsedTime.NoTime? {
      return;
    }
    if reply.parsedTime.Unparsable? {
      r := r.(confidence := 0, error := Some("時間格式驗證失敗"));
      return;
    }
    var t := reply.parsedTime.wall;
    if t <= now {
      t := AdvanceToFuture(t, now);
      r := r.(parsedTime := Naive(t), interpretedAs := r.interpretedAs + " (已調整至未來時間)");
    } else {
      assert NextAfter(t, now) == t;
    }
    if t > now + YearDays * DaySeconds {
      r := r.(confidence := Max(0, r.confidence - 30), ambiguous := true);
    }
  }

  // ---------------------------------------------------------------------------
  // parse_time

  /** The result when the AI path raises. */
  function Failure(message: string): (r: TimeResult)
    ensures r.parsedTime.NoTime? && r.confidence == 0 && r.ambiguous
  {
    TimeResult(NoTime, 0, "無法解析", true, Some(message))
  }

  /** `parse_time`: a pattern result when one clears the threshold; otherwise the checked AI
      answer (`ai` None when the AI is missing or its call raises). */
  function ParseTime(text: string, now: int, ai: Option<TimeResult>, aiError: string): (r: TimeResult)
    ensures TryPatterns(Strip(Lower(text)), now).None? && ai.None? ==> r == Failure(aiError)
  {
    var pattern := TryPatterns(Strip(Lower(text)), now);
    if pattern.Some? && pattern.value.confidence > AcceptConfidence then pattern.value
    else if ai.None? then Failure(aiError)
    else Validate(ai.value, now)
  }

  /** The AI is consulted only when no pattern succeeds. */
  lemma AiOnlyWithoutPattern(text: string, now: int, ai: Option<TimeResult>, aiError: string)
    ensures TryPatterns(Strip(Lower(text)), now).Some? ==>
      ParseTime(text, now, ai, aiError) == TryPatterns(Strip(Lower(text)), now).value
    ensures TryPatterns(Strip(Lower(text)), now).None? && ai.Some? ==>
      ParseTime(text, now, ai, aiError) == Validate(ai.value, now)
  {
    PatternResultAccepted(Strip(Lower(text)), now);
  }
}
