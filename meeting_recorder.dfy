/** The synchronised multi-user recorder: per-user PCM ingestion, presence history,
    presence intervals and the per-user timeline assembled when recording stops.

    Time is counted in ticks of 1/48000 s (one PCM frame at the recorder's sample rate),
    so a chunk of `n` frames lasts exactly `n` ticks. A frame is 4 bytes (2 channels of
    2-byte samples); that byte count is written as the literal 4 throughout, which keeps the
    arithmetic about frames linear for the verifier. */
module MeetingRecorder {
  import opened Common

  /** A chunk shorter than 1 ms (48 frames at 48 kHz) is dropped. */
  const MinFrames: nat := 48

  datatype Kind = Audio | Silence

  /** One timeline entry: `(start_time, end_time, kind, data)`. */
  datatype Segment = Segment(start: int, end: int, kind: Kind, data: seq<byte>)

  /** One `presence_history` entry: `(timestamp, is_present)`. */
  datatype Mark = Mark(time: int, present: bool)

  /** One presence interval: `(start, end, is_present)`. */
  datatype Interval = Interval(start: int, end: int, present: bool)

  /** The duration of a segment is the number of whole frames its data holds. */
  predicate WellFormed(s: Segment) {
    s.start <= s.end && s.end - s.start == |s.data| / 4
  }

  // ---------------------------------------------------------------------------
  // Packet validation in `write`

  /** What `write` keeps of a packet's pcm: nothing when it is missing, empty or shorter than
      one frame; otherwise the longest prefix made of whole frames. */
  function AlignPcm(pcm: Option<seq<byte>>): (r: Option<seq<byte>>)
    ensures r.Some? <==> pcm.Some? && |pcm.value| >= 4
    ensures r.Some? ==> r.value <= pcm.value && |r.value| % 4 == 0
    ensures r.Some? ==> |pcm.value| - |r.value| < 4 && |r.value| > 0
  {
    match pcm
    case None => None
    case Some(p) =>
      if |p| == 0 then None
      else if |p| % 4 != 0 then
        var aligned := (|p| / 4) * 4;
        if aligned == 0 then None else Some(p[..aligned])
      else Some(p)
  }

  // ---------------------------------------------------------------------------
  // Silence

  /** The four bytes of the Python literal `b'\\x00'`: a backslash, 'x', '0', '0'. */
  const LiteralBackslashX00: seq<byte> := [92, 120, 48, 48]

  /** Silence as the recorder builds it: `b'\\x00' * (frames * frame_size)`. */
  function SilenceAsWritten(frames: nat): (r: seq<byte>)
    ensures forall i :: 0 <= i < |r| ==> r[i] in LiteralBackslashX00
  {
    Repeat(LiteralBackslashX00, frames * 4)
  }

  /** The literal padding is four times as long as the frames it stands for, and is not
      silent: a PCM writer that appends it lengthens the file by 4 × frames and adds noise. */
  lemma SilenceAsWrittenIsFourTimesTooLong(frames: nat)
    requires frames > 0
    ensures |SilenceAsWritten(frames)| / 4 == 4 * frames
    ensures |SilenceAsWritten(frames)| / 4 != frames
    ensures SilenceAsWritten(frames)[0] != 0
  {
    var r := SilenceAsWritten(frames);
    assert |r| == 4 * (frames * 4);
    assert r[0] == LiteralBackslashX00[0] by {
      assert r == LiteralBackslashX00 + Repeat(LiteralBackslashX00, frames * 4 - 1);
    }
  }

  /** Intended silence: `frames` frames of zero bytes. */
  function SilencePcm(frames: nat): (r: seq<byte>)
    ensures |r| == frames * 4 && |r| / 4 == frames
    ensures forall i :: 0 <= i < |r| ==> r[i] == 0
  {
    Repeat([0], frames * 4)
  }

  /** A silence entry from `start` to `end`, with intended (zero-byte) padding. */
  function SilenceSegment(start: int, end: int): (s: Segment)
    requires start <= end
    ensures WellFormed(s) && s.kind == Silence && s.start == start && s.end == end
  {
    Segment(start, end, Silence, SilencePcm(end - start))
  }

  // ---------------------------------------------------------------------------
  // Presence history

  /** Consecutive entries of the history alternate between present and absent. */
  predicate Alternates(h: seq<Mark>) {
    forall i :: 0 <= i < |h| - 1 ==> h[i].present != h[i + 1].present
  }

  /** The history after observing the user present (or absent) at `now`: a mark is added only
      when the state changes. */
  function Observed(h: seq<Mark>, present: bool, now: int): (r: seq<Mark>)
    requires |h| > 0
    ensures |r| > 0 && r[|r| - 1].present == present && h <= r
    ensures r == h <==> h[|h| - 1].present == present
    ensures Alternates(h) ==> Alternates(r)
  {
    if h[|h| - 1].present == present then h else h + [Mark(now, present)]
  }

  /** The timestamps of the history never go backwards (a monotonic clock). */
  predicate Chronological(h: seq<Mark>) {
    forall i, j :: 0 <= i < j < |h| ==> h[i].time <= h[j].time
  }

  /** The intervals are non-empty, back to back, and cover exactly [from, to). */
  predicate Tiles(iv: seq<Interval>, from: int, to: int) {
    && |iv| > 0
    && iv[0].start == from
    && iv[|iv| - 1].end == to
    && (forall i :: 0 <= i < |iv| ==> iv[i].start < iv[i].end)
    && (forall i :: 0 <= i < |iv| - 1 ==> iv[i].end == iv[i + 1].start)
  }

  // ---------------------------------------------------------------------------
  // Sorting segments by start time (`sorted(..., key=lambda x: x[0])`)

  predicate SortedByStart(s: seq<Segment>) {
    forall i, j :: 0 <= i < j < |s| ==> s[i].start <= s[j].start
  }

  /** Every segment is well-formed audio. */
  predicate AllAudio(s: seq<Segment>) {
    forall i :: 0 <= i < |s| ==> WellFormed(s[i]) && s[i].kind == Audio
  }

  /** Puts `x` before the first segment that does not start earlier than it. */
  function InsertByStart(x: Segment, s: seq<Segment>): (r: seq<Segment>)
    requires SortedByStart(s)
    ensures SortedByStart(r)
    ensures |r| == |s| + 1 && (r[0] == x || (s != [] && r[0] == s[0]))
  {
    if s == [] || x.start <= s[0].start then [x] + s
    else
      assert s == [s[0]] + s[1..];
      [s[0]] + InsertByStart(x, s[1..])
  }

  /** Inserting adds exactly `x` to the segments. */
  lemma {:induction false} InsertByStartPermutes(x: Segment, s: seq<Segment>)
    requires SortedByStart(s)
    ensures multiset(InsertByStart(x, s)) == multiset(s) + multiset{x}
  {
    if s != [] && x.start > s[0].start {
      assert s == [s[0]] + s[1..];
      InsertByStartPermutes(x, s[1..]);
    }
  }

  /** A stable insertion sort of the segments by start time. */
  function SortByStart(s: seq<Segment>): (r: seq<Segment>)
    ensures SortedByStart(r)
  {
    if s == [] then []
    else InsertByStart(s[0], SortByStart(s[1..]))
  }

  /** Sorting reorders the segments and neither adds nor drops one. */
  lemma {:induction false} SortByStartPermutes(s: seq<Segment>)
    ensures multiset(SortByStart(s)) == multiset(s)
  {
    if s != [] {
      assert s == [s[0]] + s[1..];
      SortByStartPermutes(s[1..]);
      InsertByStartPermutes(s[0], SortByStart(s[1..]));
    }
  }

  /** Reordering keeps every segment well-formed audio. */
  lemma AllAudioPermutation(a: seq<Segment>, b: seq<Segment>)
    requires multiset(a) == multiset(b) && AllAudio(b)
    ensures AllAudio(a)
  {
    forall i | 0 <= i < |a| ensures WellFormed(a[i]) && a[i].kind == Audio {
      assert a[i] in multiset(b);
      var j :| 0 <= j < |b| && b[j] == a[i];
    }
  }

  // ---------------------------------------------------------------------------
  // Clipping to the meeting's end

  /** A segment ending after `actualEnd` is cut to end there, keeping as many whole frames
      of its data as the shortened span holds (Python slicing clamps to the data). */
  function Clip(s: Segment, actualEnd: int): (r: Segment)
    requires s.start < actualEnd
    ensures r.start == s.start && r.kind == s.kind && r.end <= actualEnd
    ensures s.end <= actualEnd ==> r == s
    ensures s.end > actualEnd ==> r.end == actualEnd && r.data <= s.data
    ensures WellFormed(s) ==> WellFormed(r)
  {
    if s.end > actualEnd then
      var keep := (actualEnd - s.start) * 4;
      Segment(s.start, actualEnd, s.kind, Take(s.data, keep))
    else s
  }

  /** The filtering step of the timeline builder: drop the segments that start at or after
      `actualEnd`, clip the rest. */
  function ClipAll(segs: seq<Segment>, actualEnd: int): (r: seq<Segment>)
    ensures |r| <= |segs|
    ensures forall i :: 0 <= i < |r| ==> r[i].start < actualEnd && r[i].end <= actualEnd
  {
    if segs == [] then []
    else if segs[0].start >= actualEnd then ClipAll(segs[1..], actualEnd)
    else [Clip(segs[0], actualEnd)] + ClipAll(segs[1..], actualEnd)
  }

  /** The segments the timeline is built from: sorted by start, then clipped to `actualEnd`. */
  function Filtered(segs: seq<Segment>, actualEnd: int): seq<Segment> {
    ClipAll(SortByStart(segs), actualEnd)
  }

  /** Clipping keeps segments well-formed audio. */
  lemma {:induction false} ClipAllAudio(segs: seq<Segment>, actualEnd: int)
    requires AllAudio(segs)
    ensures AllAudio(ClipAll(segs, actualEnd))
  {
    if segs != [] {
      ClipAllAudio(segs[1..], actualEnd);
    }
  }

  /** Clipping never moves a start time, so a lower bound on the starts survives it. */
  lemma {:induction false} ClipAllStartsFrom(segs: seq<Segment>, actualEnd: int, lo: int)
    requires forall i :: 0 <= i < |segs| ==> lo <= segs[i].start
    ensures forall i :: 0 <= i < |ClipAll(segs, actualEnd)| ==> lo <= ClipAll(segs, actualEnd)[i].start
  {
    if segs != [] {
      ClipAllStartsFrom(segs[1..], actualEnd, lo);
    }
  }

  /** Clipping keeps the start-time order. */
  lemma {:induction false} ClipAllSorted(segs: seq<Segment>, actualEnd: int)
    requires SortedByStart(segs)
    ensures SortedByStart(ClipAll(segs, actualEnd))
  {
    if segs != [] {
      ClipAllSorted(segs[1..], actualEnd);
      ClipAllStartsFrom(segs[1..], actualEnd, segs[0].start);
    }
  }

  /** The filtered segments are well-formed audio sorted by start, each starting before
      `actualEnd` and ending by it. */
  lemma FilteredFacts(segs: seq<Segment>, actualEnd: int)
    requires AllAudio(segs)
    ensures AllAudio(Filtered(segs, actualEnd)) && SortedByStart(Filtered(segs, actualEnd))
    ensures forall i :: 0 <= i < |Filtered(segs, actualEnd)| ==>
      Filtered(segs, actualEnd)[i].start < actualEnd && Filtered(segs, actualEnd)[i].end <= actualEnd
  {
    var sorted := SortByStart(segs);
    SortByStartPermutes(segs);
    AllAudioPermutation(sorted, segs);
    ClipAllAudio(sorted, actualEnd);
    ClipAllSorted(sorted, actualEnd);
  }

  /** The audio entries of a timeline, in order. */
  function AudioOf(t: seq<Segment>): (r: seq<Segment>)
    ensures |r| <= |t|
    ensures forall i :: 0 <= i < |r| ==> r[i].kind == Audio
  {
    if t == [] then [] else (if t[0].kind == Audio then [t[0]] else []) + AudioOf(t[1..])
  }

  lemma {:induction false} AudioOfAppend(a: seq<Segment>, b: seq<Segment>)
    ensures AudioOf(a + b) == AudioOf(a) + AudioOf(b)
  {
    if a == [] {
      assert a + b == b;
    } else {
      assert (a + b)[1..] == a[1..] + b;
      AudioOfAppend(a[1..], b);
    }
  }

  /** The last entry of a non-empty timeline. */
  function Last(t: seq<Segment>): Segment
    requires t != []
  {
    t[|t| - 1]
  }

  /** Every entry is well formed and ends by `bound`. */
  predicate TimelineBounded(t: seq<Segment>, bound: int) {
    forall i :: 0 <= i < |t| ==> WellFormed(t[i]) && t[i].end <= bound
  }

  // ---------------------------------------------------------------------------
  // Presence intervals (`_get_presence_intervals_limited`)

  /** The intervals from mark `k` of the history on, the current interval having opened at
      `cur` with flag `curPresent`: a mark after `actualEnd` ends the scan, a mark at a later
      time closes the current interval, every mark opens the next interval with its own
      flag, and the last interval runs up to `actualEnd`. */
  function IntervalsFrom(h: seq<Mark>, k: nat, cur: int, curPresent: bool, actualEnd: int): seq<Interval>
    requires k <= |h|
    decreases |h| - k
  {
    if k < |h| && h[k].time <= actualEnd then
      (if cur < h[k].time then [Interval(cur, h[k].time, curPresent)] else [])
      + IntervalsFrom(h, k + 1, h[k].time, h[k].present, actualEnd)
    else if cur < actualEnd then [Interval(cur, actualEnd, curPresent)]
    else []
  }

  /** The presence intervals of a history from the meeting start up to `actualEnd`; an empty
      history counts as present throughout. */
  function IntervalsLimited(h: seq<Mark>, meetingStart: int, actualEnd: int): seq<Interval> {
    if h == [] then [Interval(meetingStart, actualEnd, true)]
    else IntervalsFrom(h, 1, meetingStart, h[0].present, actualEnd)
  }

  /** The mark in force at time `t`: the last mark of the history at or before `t`. */
  function MarkInForce(h: seq<Mark>, t: int): (r: Option<Mark>)
    ensures r.Some? ==> r.value in h && r.value.time <= t
  {
    if h == [] then None
    else if h[|h| - 1].time <= t then Some(h[|h| - 1])
    else MarkInForce(h[..|h| - 1], t)
  }

  /** In a chronological history, the mark in force at `t` is mark `j` when `t` falls between
      it and the next mark. */
  lemma {:induction false} MarkInForceAt(h: seq<Mark>, j: nat, t: int)
    requires Chronological(h) && j < |h| && h[j].time <= t
    requires j == |h| - 1 || t < h[j + 1].time
    ensures MarkInForce(h, t) == Some(h[j])
    decreases |h|
  {
    if j < |h| - 1 {
      var p := h[..|h| - 1];
      assert h[j + 1].time <= h[|h| - 1].time;
      assert p[j] == h[j];
      assert j == |p| - 1 || t < p[j + 1].time;
      MarkInForceAt(p, j, t);
    }
  }

  /** An interval ending where a tiling begins extends the tiling back to its own start. */
  lemma TilesCons(x: Interval, rest: seq<Interval>, to: int)
    requires x.start < x.end && Tiles(rest, x.end, to)
    ensures Tiles([x] + rest, x.start, to)
  {
    var r := [x] + rest;
    assert forall i :: 1 <= i < |r| ==> r[i] == rest[i - 1];
  }

  /** Every interval is non-empty and ends by `bound`. */
  predicate IntervalsWithin(iv: seq<Interval>, bound: int) {
    forall i :: 0 <= i < |iv| ==> iv[i].start < iv[i].end <= bound
  }

  /** The intervals are non-empty and end by `actualEnd`. */
  lemma {:induction false} IntervalsFromBounded(h: seq<Mark>, k: nat, cur: int, curPresent: bool, actualEnd: int)
    requires k <= |h|
    ensures IntervalsWithin(IntervalsFrom(h, k, cur, curPresent, actualEnd), actualEnd)
    decreases |h| - k
  {
    if k < |h| && h[k].time <= actualEnd {
      IntervalsFromBounded(h, k + 1, h[k].time, h[k].present, actualEnd);
    }
  }

  /** In a chronological history scanned from the mark that opened the current interval,
      the intervals tile [cur, actualEnd), and there are none once `actualEnd` is reached. */
  lemma {:induction false} IntervalsFromTiles(h: seq<Mark>, k: nat, cur: int, curPresent: bool, actualEnd: int)
    requires 1 <= k <= |h| && Chronological(h) && h[k - 1] == Mark(cur, curPresent)
    ensures var r := IntervalsFrom(h, k, cur, curPresent, actualEnd);
      && (cur < actualEnd ==> Tiles(r, cur, actualEnd))
      && (actualEnd <= cur ==> r == [])
    decreases |h| - k
  {
    if k < |h| && h[k].time <= actualEnd {
      var m := h[k];
      var rest := IntervalsFrom(h, k + 1, m.time, m.present, actualEnd);
      IntervalsFromTiles(h, k + 1, m.time, m.present, actualEnd);
      assert cur <= m.time;
      if cur < m.time {
        var x := Interval(cur, m.time, curPresent);
        assert IntervalsFrom(h, k, cur, curPresent, actualEnd) == [x] + rest;
        if m.time < actualEnd {
          TilesCons(x, rest, actualEnd);
        } else {
          assert [x] + rest == [x];
        }
      }
    }
  }

  /** Each interval opens at the mark in force at its start and carries that mark's flag. */
  predicate FlagsInForce(h: seq<Mark>, iv: seq<Interval>) {
    forall i :: 0 <= i < |iv| ==> MarkInForce(h, iv[i].start) == Some(Mark(iv[i].start, iv[i].present))
  }

  /** In a chronological history scanned from the mark that opened the current interval,
      each interval opens at the mark in force at its start and carries that mark's flag. */
  lemma {:induction false} IntervalsFromFlags(h: seq<Mark>, k: nat, cur: int, curPresent: bool, actualEnd: int)
    requires 1 <= k <= |h| && Chronological(h) && h[k - 1] == Mark(cur, curPresent)
    ensures FlagsInForce(h, IntervalsFrom(h, k, cur, curPresent, actualEnd))
    decreases |h| - k
  {
    if k < |h| && h[k].time <= actualEnd {
      IntervalsFromFlags(h, k + 1, h[k].time, h[k].present, actualEnd);
      if cur < h[k].time {
        MarkInForceAt(h, k - 1, cur);
      }
    } else if cur < actualEnd {
      MarkInForceAt(h, k - 1, cur);
    }
  }

  /** The presence intervals of a history that opens at the meeting start end by
      `actualEnd`; with a monotonic clock they tile [meetingStart, actualEnd) (there are none
      when the meeting has no length), and each interval carries the flag of the last mark
      at or before its start. */
  lemma IntervalsLimitedFacts(h: seq<Mark>, meetingStart: int, actualEnd: int)
    requires |h| >= 1 && h[0].time == meetingStart
    ensures IntervalsWithin(IntervalsLimited(h, meetingStart, actualEnd), actualEnd)
    ensures var r := IntervalsLimited(h, meetingStart, actualEnd);
      Chronological(h) ==>
        && (meetingStart < actualEnd ==> Tiles(r, meetingStart, actualEnd))
        && (actualEnd <= meetingStart ==> r == [])
        && FlagsInForce(h, r)
  {
    IntervalsFromBounded(h, 1, meetingStart, h[0].present, actualEnd);
    if Chronological(h) {
      IntervalsFromTiles(h, 1, meetingStart, h[0].present, actualEnd);
      IntervalsFromFlags(h, 1, meetingStart, h[0].present, actualEnd);
    }
  }

  /** Scanning a history extended with marks after `actualEnd` gives the same intervals. */
  lemma {:induction false} IntervalsFromIgnore(h: seq<Mark>, extra: seq<Mark>, k: nat, cur: int, curPresent: bool,
                                               actualEnd: int)
    requires k <= |h| && (extra == [] || extra[0].time > actualEnd)
    ensures IntervalsFrom(h + extra, k, cur, curPresent, actualEnd) == IntervalsFrom(h, k, cur, curPresent, actualEnd)
    decreases |h| - k
  {
    var g := h + extra;
    if k < |h| {
      assert g[k] == h[k];
      if h[k].time <= actualEnd {
        IntervalsFromIgnore(h, extra, k + 1, h[k].time, h[k].present, actualEnd);
      }
    } else if extra != [] {
      assert g[k] == extra[0];
    }
  }

  /** Marks after `actualEnd` do not change the presence intervals. */
  lemma IntervalsIgnoreLaterMarks(h: seq<Mark>, extra: seq<Mark>, meetingStart: int, actualEnd: int)
    requires |h| >= 1
    requires forall i :: 0 <= i < |extra| ==> extra[i].time > actualEnd
    ensures IntervalsLimited(h + extra, meetingStart, actualEnd) == IntervalsLimited(h, meetingStart, actualEnd)
  {
    assert (h + extra)[0] == h[0];
    IntervalsFromIgnore(h, extra, 1, meetingStart, h[0].present, actualEnd);
  }

  // ---------------------------------------------------------------------------
  // The timeline (`_build_complete_timeline`)

  /** Silence from `from` up to `to`, or nothing when `from` has already reached `to`. */
  function Gap(from: int, to: int): (g: seq<Segment>)
    ensures AudioOf(g) == [] && TimelineBounded(g, to) && |g| <= 1
    ensures g == [] || g[0].end == to
    ensures g == [] <==> to <= from
  {
    if from < to then [SilenceSegment(from, to)] else []
  }

  /** The entries laid out for one interval and the index of the first filtered segment the
      layout did not consume. */
  datatype Layout = Layout(entries: seq<Segment>, next: nat)

  /** A present interval laid out from `cur` up to `ivEnd`: each filtered segment from `i` on
      that ends by `ivEnd` is placed in order, after silence when it starts later than the
      point reached; the first segment ending after `ivEnd` stops the layout, and the rest of
      the interval is silence. */
  function PresentLayout(filtered: seq<Segment>, i: nat, cur: int, ivEnd: int): (r: Layout)
    requires i <= |filtered|
    ensures i <= r.next <= |filtered|
    ensures forall k :: i <= k < r.next ==> filtered[k].end <= ivEnd
    ensures r.next < |filtered| ==> filtered[r.next].end > ivEnd
    decreases |filtered| - i
  {
    if i < |filtered| && filtered[i].end <= ivEnd then
      Layout(Gap(cur, filtered[i].start) + [filtered[i]] + PresentLayout(filtered, i + 1, filtered[i].end, ivEnd).entries,
             PresentLayout(filtered, i + 1, filtered[i].end, ivEnd).next)
    else Layout(Gap(cur, ivEnd), i)
  }

  /** Joining two timelines bounded by `bound` keeps the bound. */
  lemma BoundedConcat(t: seq<Segment>, u: seq<Segment>, bound: int)
    requires TimelineBounded(t, bound) && TimelineBounded(u, bound)
    ensures TimelineBounded(t + u, bound)
  {
  }

  /** The audio of a present interval's entries is exactly the segments it consumed. */
  lemma {:induction false} PresentLayoutAudio(filtered: seq<Segment>, i: nat, cur: int, ivEnd: int)
    requires i <= |filtered| && AllAudio(filtered)
    ensures AudioOf(PresentLayout(filtered, i, cur, ivEnd).entries)
            == filtered[i..PresentLayout(filtered, i, cur, ivEnd).next]
    decreases |filtered| - i
  {
    if i < |filtered| && filtered[i].end <= ivEnd {
      var seg := filtered[i];
      var rest := PresentLayout(filtered, i + 1, seg.end, ivEnd);
      var g := Gap(cur, seg.start);
      PresentLayoutAudio(filtered, i + 1, seg.end, ivEnd);
      assert PresentLayout(filtered, i, cur, ivEnd) == Layout(g + [seg] + rest.entries, rest.next);
      AudioOfAppend(g, [seg]);
      AudioOfAppend(g + [seg], rest.entries);
      assert AudioOf([seg]) == [seg] + AudioOf([]);
      assert AudioOf(g + [seg] + rest.entries) == [seg] + filtered[i + 1..rest.next];
      SliceCons(filtered, i, rest.next);
    } else {
      assert PresentLayout(filtered, i, cur, ivEnd) == Layout(Gap(cur, ivEnd), i);
    }
  }

  /** The entries of a present interval are well formed and end by `ivEnd`. */
  lemma {:induction false} PresentLayoutBounded(filtered: seq<Segment>, i: nat, cur: int, ivEnd: int)
    requires i <= |filtered| && AllAudio(filtered)
    ensures TimelineBounded(PresentLayout(filtered, i, cur, ivEnd).entries, ivEnd)
    decreases |filtered| - i
  {
    if i < |filtered| && filtered[i].end <= ivEnd {
      var seg := filtered[i];
      var rest := PresentLayout(filtered, i + 1, seg.end, ivEnd);
      PresentLayoutBounded(filtered, i + 1, seg.end, ivEnd);
      var g := Gap(cur, seg.start);
      assert TimelineBounded(g + [seg], ivEnd);
      BoundedConcat(g + [seg], rest.entries, ivEnd);
    }
  }

  /** Once a present interval has placed a segment, or was entered before its end, its
      entries cover it up to its end. */
  lemma {:induction false} PresentLayoutEnd(filtered: seq<Segment>, i: nat, cur: int, ivEnd: int)
    requires i <= |filtered|
    requires cur < ivEnd || PresentLayout(filtered, i, cur, ivEnd).next > i
    ensures PresentLayout(filtered, i, cur, ivEnd).entries != []
    ensures Last(PresentLayout(filtered, i, cur, ivEnd).entries).end == ivEnd
    decreases |filtered| - i
  {
    if i < |filtered| && filtered[i].end <= ivEnd {
      var seg := filtered[i];
      var rest := PresentLayout(filtered, i + 1, seg.end, ivEnd);
      var e := Gap(cur, seg.start) + [seg] + rest.entries;
      assert PresentLayout(filtered, i, cur, ivEnd).entries == e;
      if seg.end < ivEnd || rest.next > i + 1 {
        PresentLayoutEnd(filtered, i + 1, seg.end, ivEnd);
        assert Last(e) == Last(rest.entries);
      } else {
        assert rest.entries == [];
        assert Last(e) == seg;
      }
    } else {
      assert PresentLayout(filtered, i, cur, ivEnd) == Layout(Gap(cur, ivEnd), i);
    }
  }

  /** One presence interval entered at `current`: the layout starts at the later of `current`
      and the interval's start; an absent interval is at most one silence entry and consumes
      no segment. */
  function IntervalLayout(filtered: seq<Segment>, i: nat, current: int, iv: Interval): (r: Layout)
    requires i <= |filtered|
    ensures i <= r.next <= |filtered|
    ensures !iv.present ==> r.next == i && AudioOf(r.entries) == []
  {
    if iv.present then PresentLayout(filtered, i, Max(current, iv.start), iv.end)
    else Layout(Gap(Max(current, iv.start), iv.end), i)
  }

  /** The timeline from interval `n` on, entered at `current` with the filtered segments from
      `i` on still to place; after the last interval the meeting is padded with silence up to
      `actualEnd`. */
  function TimelineFrom(filtered: seq<Segment>, intervals: seq<Interval>, n: nat, i: nat, current: int,
                        actualEnd: int): seq<Segment>
    requires n <= |intervals| && i <= |filtered|
    decreases |intervals| - n
  {
    if n == |intervals| then Gap(current, actualEnd)
    else
      IntervalLayout(filtered, i, current, intervals[n]).entries
      + TimelineFrom(filtered, intervals, n + 1, IntervalLayout(filtered, i, current, intervals[n]).next,
                     intervals[n].end, actualEnd)
  }

  /** The timeline assembled from the filtered segments and the presence intervals. */
  function Timeline(filtered: seq<Segment>, intervals: seq<Interval>, start: int, actualEnd: int): seq<Segment> {
    TimelineFrom(filtered, intervals, 0, 0, start, actualEnd)
  }

  /** The timeline from interval `n` on is well formed and ends by `actualEnd`. */
  lemma {:induction false} TimelineFromBounded(filtered: seq<Segment>, intervals: seq<Interval>, n: nat, i: nat,
                                               current: int, actualEnd: int)
    requires n <= |intervals| && i <= |filtered| && AllAudio(filtered)
    requires forall k :: n <= k < |intervals| ==> intervals[k].end <= actualEnd
    ensures TimelineBounded(TimelineFrom(filtered, intervals, n, i, current, actualEnd), actualEnd)
    decreases |intervals| - n
  {
    if n < |intervals| {
      var iv := intervals[n];
      var l := IntervalLayout(filtered, i, current, iv);
      TimelineFromBounded(filtered, intervals, n + 1, l.next, iv.end, actualEnd);
      if iv.present {
        PresentLayoutBounded(filtered, i, Max(current, iv.start), iv.end);
      }
      assert TimelineBounded(l.entries, actualEnd);
      BoundedConcat(l.entries, TimelineFrom(filtered, intervals, n + 1, l.next, iv.end, actualEnd), actualEnd);
    }
  }

  /** The audio of the timeline from interval `n` on is the filtered segments from `i` on, in
      order (a prefix of them). */
  lemma {:induction false} TimelineFromAudio(filtered: seq<Segment>, intervals: seq<Interval>, n: nat, i: nat,
                                             current: int, actualEnd: int)
    requires n <= |intervals| && i <= |filtered| && AllAudio(filtered)
    ensures AudioOf(TimelineFrom(filtered, intervals, n, i, current, actualEnd)) <= filtered[i..]
    decreases |intervals| - n
  {
    if n < |intervals| {
      var iv := intervals[n];
      var l := IntervalLayout(filtered, i, current, iv);
      var rest := TimelineFrom(filtered, intervals, n + 1, l.next, iv.end, actualEnd);
      TimelineFromAudio(filtered, intervals, n + 1, l.next, iv.end, actualEnd);
      if iv.present {
        PresentLayoutAudio(filtered, i, Max(current, iv.start), iv.end);
      } else {
        assert filtered[i..l.next] == [];
      }
      AudioOfAppend(l.entries, rest);
      PrefixJoin(filtered, i, l.next, AudioOf(rest));
    }
  }

  /** A run of `s` followed by a prefix of what comes after it is a prefix of `s` from the
      run's start. */
  lemma PrefixJoin<T>(s: seq<T>, i: nat, j: nat, p: seq<T>)
    requires i <= j <= |s| && p <= s[j..]
    ensures s[i..j] + p <= s[i..]
  {
    var q := s[i..j] + p;
    assert forall k :: 0 <= k < |q| ==> q[k] == s[i..][k];
  }

  /** When the intervals from `n` on tile [current, actualEnd), the timeline from there ends
      exactly at `actualEnd`. */
  lemma {:induction false} TimelineFromEnd(filtered: seq<Segment>, intervals: seq<Interval>, n: nat, i: nat,
                                           current: int, actualEnd: int)
    requires n < |intervals| && i <= |filtered| && Tiles(intervals[n..], current, actualEnd)
    ensures TimelineFrom(filtered, intervals, n, i, current, actualEnd) != []
    ensures Last(TimelineFrom(filtered, intervals, n, i, current, actualEnd)).end == actualEnd
    decreases |intervals| - n
  {
    var iv := intervals[n];
    var l := IntervalLayout(filtered, i, current, iv);
    var rest := TimelineFrom(filtered, intervals, n + 1, l.next, iv.end, actualEnd);
    TimelineFromStep(filtered, intervals, n, i, current, actualEnd);
    assert intervals[n..][0] == iv;
    if iv.present {
      PresentLayoutEnd(filtered, i, Max(current, iv.start), iv.end);
    }
    assert l.entries != [] && Last(l.entries).end == iv.end;
    if n + 1 < |intervals| {
      TilesTail(intervals, n, current, actualEnd);
      TimelineFromEnd(filtered, intervals, n + 1, l.next, iv.end, actualEnd);
      LastAppend(l.entries, rest);
    } else {
      assert intervals[n..][|intervals[n..]| - 1] == iv;
      assert rest == [];
      assert l.entries + rest == l.entries;
    }
  }

  /** Tiling from interval `n` on continues, from that interval's end, with the next one. */
  lemma TilesTail(intervals: seq<Interval>, n: nat, from: int, to: int)
    requires n + 1 < |intervals| && Tiles(intervals[n..], from, to)
    ensures Tiles(intervals[n + 1..], intervals[n].end, to)
  {
    assert intervals[n..][0] == intervals[n] && intervals[n..][1] == intervals[n + 1];
  }

  /** The last entry of a join with a non-empty second part is that part's last entry. */
  lemma LastAppend(t: seq<Segment>, u: seq<Segment>)
    requires u != []
    ensures Last(t + u) == Last(u)
  {
  }

  /** The assembled timeline is well formed and ends by `actualEnd`, its audio entries are the
      filtered segments in order (a prefix of them), and when the intervals tile
      [start, actualEnd) its last entry ends exactly at `actualEnd`. */
  lemma TimelineFacts(filtered: seq<Segment>, intervals: seq<Interval>, start: int, actualEnd: int)
    requires AllAudio(filtered)
    requires forall k :: 0 <= k < |intervals| ==> intervals[k].end <= actualEnd
    ensures TimelineBounded(Timeline(filtered, intervals, start, actualEnd), actualEnd)
    ensures AudioOf(Timeline(filtered, intervals, start, actualEnd)) <= filtered
    ensures Tiles(intervals, start, actualEnd) ==>
      Timeline(filtered, intervals, start, actualEnd) != [] &&
      Last(Timeline(filtered, intervals, start, actualEnd)).end == actualEnd
  {
    TimelineFromBounded(filtered, intervals, 0, 0, start, actualEnd);
    TimelineFromAudio(filtered, intervals, 0, 0, start, actualEnd);
    assert filtered[0..] == filtered;
    if Tiles(intervals, start, actualEnd) {
      assert intervals[0..] == intervals;
      TimelineFromEnd(filtered, intervals, 0, 0, start, actualEnd);
    }
  }

  // ---------------------------------------------------------------------------
  // One user's tracker

  class UserAudioTracker {
    const userId: int
    const meetingStart: int
    var audioSegments: seq<Segment>
    var presenceHistory: seq<Mark>
    var lastAudioTime: int

    ghost predicate Valid()
      reads this
    {
      && |presenceHistory| >= 1
      && presenceHistory[0] == Mark(meetingStart, true)
      && Alternates(presenceHistory)
      && forall i :: 0 <= i < |audioSegments| ==>
           WellFormed(audioSegments[i]) && audioSegments[i].kind == Audio
           && audioSegments[i].end - audioSegments[i].start >= MinFrames
    }

    /** A new tracker is present from the meeting start and holds no audio. */
    constructor (userId: int, meetingStart: int)
      ensures Valid()
      ensures this.userId == userId && this.meetingStart == meetingStart
      ensures audioSegments == [] && presenceHistory == [Mark(meetingStart, true)]
      ensures lastAudioTime == meetingStart
    {
      this.userId := userId;
      this.meetingStart := meetingStart;
      audioSegments := [];
      presenceHistory := [Mark(meetingStart, true)];
      lastAudioTime := meetingStart;
    }

    /** Chunks under 1 ms are ignored; otherwise one segment of |pcm| / 4 frames is appended
        and `last_audio_time` moves to its end. */
    method AddAudioData(timestamp: int, pcm: seq<byte>)
      requires Valid()
      modifies this
      ensures Valid()
      ensures presenceHistory == old(presenceHistory)
      ensures |pcm| / 4 < MinFrames ==>
        audioSegments == old(audioSegments) && lastAudioTime == old(lastAudioTime)
      ensures |pcm| / 4 >= MinFrames ==>
        && audioSegments == old(audioSegments) + [Segment(timestamp, timestamp + |pcm| / 4, Audio, pcm)]
        && lastAudioTime == timestamp + |pcm| / 4
    {
      var frames := |pcm| / 4;
      if frames < MinFrames {
        return;
      }
      var endTime := timestamp + frames;
      audioSegments := audioSegments + [Segment(timestamp, endTime, Audio, pcm)];
      lastAudioTime := endTime;
    }

    /** Appends a "present" mark only when the last mark says absent. */
    method MarkPresent(timestamp: int)
      requires Valid()
      modifies this`presenceHistory
      ensures Valid()
      ensures presenceHistory == Observed(old(presenceHistory), true, timestamp)
    {
      if presenceHistory == [] || presenceHistory[|presenceHistory| - 1].present != true {
        presenceHistory := presenceHistory + [Mark(timestamp, true)];
      }
    }

    /** Appends an "absent" mark only when the last mark says present. */
    method MarkAbsent(timestamp: int)
      requires Valid()
      modifies this`presenceHistory
      ensures Valid()
      ensures presenceHistory == Observed(old(presenceHistory), false, timestamp)
    {
      if presenceHistory == [] || presenceHistory[|presenceHistory| - 1].present != false {
        presenceHistory := presenceHistory + [Mark(timestamp, false)];
      }
    }
  }

  /** `_build_complete_timeline`, over a tracker's segments, history and meeting start: the
      segments sorted by start and clipped to `meetingStart + totalDuration` (`Filtered`),
      laid out over the presence intervals up to that instant (`IntervalsLimited`);
      `TrackerTimelineFacts` gives what that timeline holds. */
  method BuildCompleteTimeline(audioSegments: seq<Segment>, presenceHistory: seq<Mark>,
                               meetingStart: int, totalDuration: int)
    returns (timeline: seq<Segment>)
    ensures timeline == Timeline(Filtered(audioSegments, meetingStart + totalDuration),
                                 IntervalsLimited(presenceHistory, meetingStart, meetingStart + totalDuration),
                                 meetingStart, meetingStart + totalDuration)
  {
    var actualEnd := meetingStart + totalDuration;
    var sorted := SortByStart(audioSegments);
    var filtered := ClipSorted(sorted, actualEnd);
    var intervals := PresenceIntervalsLimited(presenceHistory, meetingStart, actualEnd);
    timeline := AssembleTimeline(filtered, intervals, meetingStart, actualEnd);
  }

  /** `_get_presence_intervals_limited`, over a tracker's history and meeting start: the scan
      of the history up to `actualEnd` gives `IntervalsLimited` (whose intervals
      `IntervalsLimitedFacts` describes). */
  method PresenceIntervalsLimited(presenceHistory: seq<Mark>, meetingStart: int, actualEnd: int)
    returns (intervals: seq<Interval>)
    ensures intervals == IntervalsLimited(presenceHistory, meetingStart, actualEnd)
  {
    if presenceHistory == [] {
      return [Interval(meetingStart, actualEnd, true)];
    }
    intervals := [];
    var cur := meetingStart;
    var curPresent := presenceHistory[0].present;
    var k := 1;
    while k < |presenceHistory|
      invariant 1 <= k <= |presenceHistory|
      invariant intervals + IntervalsFrom(presenceHistory, k, cur, curPresent, actualEnd)
                == IntervalsLimited(presenceHistory, meetingStart, actualEnd)
    {
      var mark := presenceHistory[k];
      if mark.time > actualEnd {
        break;
      }
      var piece := if cur < mark.time then [Interval(cur, mark.time, curPresent)] else [];
      AppendAssoc(intervals, piece, IntervalsFrom(presenceHistory, k + 1, mark.time, mark.present, actualEnd));
      if cur < mark.time {
        intervals := intervals + [Interval(cur, mark.time, curPresent)];
      } else {
        assert intervals + piece == intervals;
      }
      cur := mark.time;
      curPresent := mark.present;
      k := k + 1;
    }
    if cur < actualEnd {
      intervals := intervals + [Interval(cur, actualEnd, curPresent)];
    } else {
      assert intervals + [] == intervals;
    }
  }

  /** The filtering loop over the sorted segments: skip what starts at or after `actualEnd`,
      clip what ends after it, keep the rest. */
  method ClipSorted(sorted: seq<Segment>, actualEnd: int) returns (filtered: seq<Segment>)
    ensures filtered == ClipAll(sorted, actualEnd)
  {
    filtered := [];
    var i := 0;
    while i < |sorted|
      invariant 0 <= i <= |sorted|
      invariant filtered + ClipAll(sorted[i..], actualEnd) == ClipAll(sorted, actualEnd)
    {
      ClipStep(filtered, sorted, i, actualEnd);
      var s := sorted[i];
      if s.start >= actualEnd {
        i := i + 1;
        continue;
      }
      filtered := filtered + [Clip(s, actualEnd)];
      i := i + 1;
    }
    assert sorted[i..] == [];
  }

  lemma ClipStep(filtered: seq<Segment>, sorted: seq<Segment>, i: nat, actualEnd: int)
    requires i < |sorted| && filtered + ClipAll(sorted[i..], actualEnd) == ClipAll(sorted, actualEnd)
    ensures var kept := if sorted[i].start >= actualEnd then [] else [Clip(sorted[i], actualEnd)];
      (filtered + kept) + ClipAll(sorted[i + 1..], actualEnd) == ClipAll(sorted, actualEnd)
  {
    assert sorted[i..][1..] == sorted[i + 1..];
    var kept := if sorted[i].start >= actualEnd then [] else [Clip(sorted[i], actualEnd)];
    assert ClipAll(sorted[i..], actualEnd) == kept + ClipAll(sorted[i + 1..], actualEnd);
    AppendAssoc(filtered, kept, ClipAll(sorted[i + 1..], actualEnd));
  }

  /** One interval of the timeline: its layout, then the timeline from the next interval. */
  lemma TimelineFromStep(filtered: seq<Segment>, intervals: seq<Interval>, n: nat, i: nat, current: int,
                         actualEnd: int)
    requires n < |intervals| && i <= |filtered|
    ensures TimelineFrom(filtered, intervals, n, i, current, actualEnd)
            == IntervalLayout(filtered, i, current, intervals[n]).entries
               + TimelineFrom(filtered, intervals, n + 1, IntervalLayout(filtered, i, current, intervals[n]).next,
                              intervals[n].end, actualEnd)
  {
  }

  /** The assembly loop of the timeline builder over the presence intervals, then the final
      padding up to `actualEnd` (the silence `Gap` adds when the last interval stops short of
      it): the result is `Timeline`. */
  method AssembleTimeline(filtered: seq<Segment>, intervals: seq<Interval>, start: int, actualEnd: int)
    returns (timeline: seq<Segment>)
    ensures timeline == Timeline(filtered, intervals, start, actualEnd)
  {
    timeline := [];
    var current := start;
    var segIdx := 0;
    var n := 0;
    while n < |intervals|
      invariant 0 <= n <= |intervals| && 0 <= segIdx <= |filtered|
      invariant timeline + TimelineFrom(filtered, intervals, n, segIdx, current, actualEnd)
                == Timeline(filtered, intervals, start, actualEnd)
    {
      var iv := intervals[n];
      var entries, next := LayOutInterval(filtered, segIdx, current, iv);
      TimelineFromStep(filtered, intervals, n, segIdx, current, actualEnd);
      AppendAssoc(timeline, entries, TimelineFrom(filtered, intervals, n + 1, next, iv.end, actualEnd));
      timeline := timeline + entries;
      segIdx := next;
      current := iv.end;
      n := n + 1;
    }
    timeline := timeline + Gap(current, actualEnd);
  }

  /** One presence interval of the timeline builder, entered at `current`: an absent interval
      becomes one silence entry when it is not yet covered, a present one is laid out by
      `LayOutPresentInterval`; the result is `IntervalLayout`. */
  method LayOutInterval(filtered: seq<Segment>, segIdx: nat, current: int, iv: Interval)
    returns (entries: seq<Segment>, next: nat)
    requires segIdx <= |filtered|
    ensures entries == IntervalLayout(filtered, segIdx, current, iv).entries
    ensures next == IntervalLayout(filtered, segIdx, current, iv).next
  {
    var ivCurrent := Max(current, iv.start);
    if !iv.present {
      entries := Gap(ivCurrent, iv.end);
      next := segIdx;
    } else {
      entries, next := LayOutPresentInterval(filtered, segIdx, ivCurrent, iv.end);
    }
  }

  /** One present interval of the timeline builder, from `from` to `ivEnd`: the segment loop,
      then silence up to the interval's end; the result is `PresentLayout`. */
  method LayOutPresentInterval(filtered: seq<Segment>, segIdx: nat, from: int, ivEnd: int)
    returns (entries: seq<Segment>, next: nat)
    requires segIdx <= |filtered|
    ensures entries == PresentLayout(filtered, segIdx, from, ivEnd).entries
    ensures next == PresentLayout(filtered, segIdx, from, ivEnd).next
  {
    var ivCurrent;
    entries, next, ivCurrent := LayOutSegments(filtered, segIdx, from, ivEnd);
    entries := entries + Gap(ivCurrent, ivEnd);
  }

  /** Placing segment `k` of a present interval after `done`: its silence (when it starts
      later than `cur`) and the segment join `done`, and the rest is laid out from the
      segment's end. */
  lemma PlaceSegment(done: seq<Segment>, filtered: seq<Segment>, k: nat, cur: int, ivEnd: int)
    requires k < |filtered| && filtered[k].end <= ivEnd
    ensures done + PresentLayout(filtered, k, cur, ivEnd).entries
      == done + Gap(cur, filtered[k].start) + [filtered[k]]
         + PresentLayout(filtered, k + 1, filtered[k].end, ivEnd).entries
    ensures PresentLayout(filtered, k, cur, ivEnd).next == PresentLayout(filtered, k + 1, filtered[k].end, ivEnd).next
  {
    var seg := filtered[k];
    var rest := PresentLayout(filtered, k + 1, seg.end, ivEnd).entries;
    var g := Gap(cur, seg.start);
    assert PresentLayout(filtered, k, cur, ivEnd).entries == g + [seg] + rest;
    AppendAssoc(done, g + [seg], rest);
    AppendAssoc(done, g, [seg]);
  }

  /** A present interval whose next segment is missing or ends after the interval is silence
      up to its end. */
  lemma PresentLayoutStop(filtered: seq<Segment>, k: nat, cur: int, ivEnd: int)
    requires k <= |filtered| && !(k < |filtered| && filtered[k].end <= ivEnd)
    ensures PresentLayout(filtered, k, cur, ivEnd).entries == Gap(cur, ivEnd)
    ensures PresentLayout(filtered, k, cur, ivEnd).next == k
  {
  }

  /** The segment loop of the present branch: each segment ending by `ivEnd` is placed after
      the silence before it; `ivCurrent` is where the layout has got to, and what is left of
      `PresentLayout` is the silence from there to `ivEnd`. */
  method LayOutSegments(filtered: seq<Segment>, segIdx: nat, from: int, ivEnd: int)
    returns (entries: seq<Segment>, next: nat, ivCurrent: int)
    requires segIdx <= |filtered|
    ensures PresentLayout(filtered, segIdx, from, ivEnd).entries == entries + Gap(ivCurrent, ivEnd)
    ensures PresentLayout(filtered, segIdx, from, ivEnd).next == next
  {
    entries := [];
    next := segIdx;
    ivCurrent := from;
    assert [] + PresentLayout(filtered, segIdx, from, ivEnd).entries == PresentLayout(filtered, segIdx, from, ivEnd).entries;
    while next < |filtered| && filtered[next].end <= ivEnd
      invariant segIdx <= next <= |filtered|
      invariant PresentLayout(filtered, segIdx, from, ivEnd).entries
                == entries + PresentLayout(filtered, next, ivCurrent, ivEnd).entries
      invariant PresentLayout(filtered, segIdx, from, ivEnd).next == PresentLayout(filtered, next, ivCurrent, ivEnd).next
      decreases |filtered| - next
    {
      var seg := filtered[next];
      PlaceSegment(entries, filtered, next, ivCurrent, ivEnd);
      entries := entries + Gap(ivCurrent, seg.start) + [seg];
      ivCurrent := seg.end;
      next := next + 1;
    }
    PresentLayoutStop(filtered, next, ivCurrent, ivEnd);
  }

  // ---------------------------------------------------------------------------
  // The recorder: one tracker per user, created on that user's first packet

  /** What stopping promises of one user's timeline: bounded by the stop instant and, with a
      monotonic clock and a positive duration, reaching it. */
  predicate Finalized(t: seq<Segment>, h: seq<Mark>, start: int, stop: int) {
    && TimelineBounded(t, stop)
    && (Chronological(h) && stop > start ==> t != [] && t[|t| - 1].end == stop)
  }

  /** One tracker's timeline (its audio well-formed, its history opening at the meeting
      start) is bounded by the stop instant, its audio entries are the filtered segments in
      order (a prefix of them), and with a monotonic clock and a positive duration it
      reaches the stop instant. */
  lemma TrackerTimelineFacts(segs: seq<Segment>, h: seq<Mark>, start: int, actualEnd: int)
    requires AllAudio(segs) && |h| >= 1 && h[0].time == start
    ensures AudioOf(Timeline(Filtered(segs, actualEnd), IntervalsLimited(h, start, actualEnd), start, actualEnd))
            <= Filtered(segs, actualEnd)
    ensures Finalized(Timeline(Filtered(segs, actualEnd), IntervalsLimited(h, start, actualEnd), start, actualEnd),
                      h, start, actualEnd)
  {
    FilteredFacts(segs, actualEnd);
    var intervals := IntervalsLimited(h, start, actualEnd);
    IntervalsLimitedFacts(h, start, actualEnd);
    TimelineFacts(Filtered(segs, actualEnd), intervals, start, actualEnd);
  }

  class SynchronizedMultiUserRecorder {
    var meetingStartTime: Option<int>
    var meetingEndTime: Option<int>
    var users: map<int, UserAudioTracker>
    /** The keys of `users` in insertion order (the iteration order of the source's dict). */
    var userOrder: seq<int>

    /** Each tracker is valid and is filed under its own user id (so trackers are distinct),
        and `userOrder` lists every key exactly once. */
    ghost predicate Valid()
      reads this, users.Values
    {
      && (forall id :: id in users ==> users[id].Valid() && users[id].userId == id)
      && NoDuplicates(userOrder)
      && (forall i :: 0 <= i < |userOrder| ==> userOrder[i] in users)
      && (forall id :: id in users ==> id in userOrder)
    }

    constructor ()
      ensures Valid() && meetingStartTime == None && meetingEndTime == None
      ensures users == map[] && userOrder == []
    {
      meetingStartTime := None;
      meetingEndTime := None;
      users := map[];
      userOrder := [];
    }

    method StartRecording(now: int)
      requires Valid()
      modifies this`meetingStartTime
      ensures Valid() && meetingStartTime == Some(now)
    {
      meetingStartTime := Some(now);
    }

    /** Creates and files a tracker for a user seen for the first time; an existing tracker
        is kept. */
    method TrackerFor(userId: int, start: int) returns (tracker: UserAudioTracker)
      requires Valid()
      modifies this`users, this`userOrder
      ensures Valid() && userId in users && tracker == users[userId]
      ensures userId in old(users) ==> users == old(users) && userOrder == old(userOrder)
      ensures userId !in old(users) ==>
        && users == old(users)[userId := tracker] && userOrder == old(userOrder) + [userId]
        && fresh(tracker) && tracker.meetingStart == start
        && tracker.presenceHistory == [Mark(start, true)] && tracker.audioSegments == []
        && tracker.lastAudioTime == start
    {
      if userId in users {
        tracker := users[userId];
      } else {
        tracker := new UserAudioTracker(userId, start);
        users := users[userId := tracker];
        userOrder := userOrder + [userId];
      }
    }

    /** Packets before the start, and packets whose pcm is missing or shorter than a frame,
        are ignored. Otherwise the pcm is cut to whole frames, the user's tracker is created
        on the first packet, and the chunk goes to that tracker; no other tracker changes
        and no tracker is removed. */
    method Write(userId: int, pcm: Option<seq<byte>>, now: int)
      requires Valid()
      modifies this`users, this`userOrder, users.Values
      ensures Valid()
      ensures old(meetingStartTime).None? || AlignPcm(pcm).None? ==>
        && users == old(users) && userOrder == old(userOrder)
        && (userId in users ==>
              && users[userId].audioSegments == old(users[userId].audioSegments)
              && users[userId].presenceHistory == old(users[userId].presenceHistory)
              && users[userId].lastAudioTime == old(users[userId].lastAudioTime))
      ensures old(meetingStartTime).Some? && AlignPcm(pcm).Some? ==>
        && users.Keys == old(users.Keys) + {userId}
        && userOrder == old(userOrder) + (if userId in old(users) then [] else [userId])
        && (userId in old(users) ==> users[userId] == old(users[userId]))
        && (userId !in old(users) ==> users[userId].meetingStart == old(meetingStartTime).value)
        && users[userId].presenceHistory ==
             (if userId in old(users) then old(users[userId].presenceHistory)
              else [Mark(old(meetingStartTime).value, true)])
        && users[userId].audioSegments ==
             (if userId in old(users) then old(users[userId].audioSegments) else [])
             + (if |AlignPcm(pcm).value| / 4 >= MinFrames
                then [Segment(now, now + |AlignPcm(pcm).value| / 4, Audio, AlignPcm(pcm).value)]
                else [])
        && users[userId].lastAudioTime ==
             (if |AlignPcm(pcm).value| / 4 >= MinFrames then now + |AlignPcm(pcm).value| / 4
              else if userId in old(users) then old(users[userId].lastAudioTime)
              else old(meetingStartTime).value)
      ensures forall id :: id in old(users) && id != userId ==>
        && users[id] == old(users[id]) && users[id].audioSegments == old(users[id].audioSegments)
        && users[id].presenceHistory == old(users[id].presenceHistory)
        && users[id].lastAudioTime == old(users[id].lastAudioTime)
    {
      if meetingStartTime.None? {
        return;
      }
      var aligned := AlignPcm(pcm);
      if aligned.None? {
        return;
      }
      var tracker := TrackerFor(userId, meetingStartTime.value);
      tracker.AddAudioData(now, aligned.value);
    }

    /** The monitor's update of one tracked user: marked present or absent at `now`; no
        other tracker and no audio changes. */
    method Observe(id: int, present: bool, now: int)
      requires Valid() && id in users
      modifies users[id]
      ensures Valid()
      ensures forall other :: other in users ==> users[other].audioSegments == old(users[other].audioSegments)
      ensures forall other :: other in users && other != id ==>
        users[other].presenceHistory == old(users[other].presenceHistory)
      ensures users[id].presenceHistory == Observed(old(users[id].presenceHistory), present, now)
    {
      if present {
        users[id].MarkPresent(now);
      } else {
        users[id].MarkAbsent(now);
      }
    }

    /** One poll of the monitor: every tracked user in `members` is marked present, every
        tracked user not in it is marked absent, all at `now`. Audio is untouched. */
    method MonitorPoll(members: set<int>, now: int)
      requires Valid()
      modifies users.Values
      ensures Valid()
      ensures forall id :: id in users ==>
        && users[id].audioSegments == old(users[id].audioSegments)
        && users[id].presenceHistory == Observed(old(users[id].presenceHistory), id in members, now)
    {
      ghost var before := map id | id in users :: users[id].presenceHistory;
      forall j | 0 <= j < |userOrder| ensures userOrder[j] in before && |before[userOrder[j]]| > 0 {
        var id := userOrder[j];
        assert id in users;
        assert users[id].Valid();
      }
      var i := 0;
      while i < |userOrder|
        invariant 0 <= i <= |userOrder|
        invariant Valid()
        invariant forall id :: id in users ==> users[id].audioSegments == old(users[id].audioSegments)
        invariant forall j :: 0 <= j < |userOrder| ==> userOrder[j] in before && |before[userOrder[j]]| > 0
        invariant forall j :: 0 <= j < i ==>
          users[userOrder[j]].presenceHistory == Observed(before[userOrder[j]], userOrder[j] in members, now)
        invariant forall j :: i <= j < |userOrder| ==>
          users[userOrder[j]].presenceHistory == before[userOrder[j]]
      {
        var id := userOrder[i];
        assert users[id].presenceHistory == before[id];
        assert forall j :: 0 <= j < |userOrder| && j != i ==> userOrder[j] != id;
        Observe(id, id in members, now);
        i := i + 1;
      }
      forall id | id in users
        ensures users[id].presenceHistory == Observed(before[id], id in members, now)
      {
        var j :| 0 <= j < |userOrder| && userOrder[j] == id;
      }
    }

    /** Each timeline in `timelines` belongs to a tracked user, is that user's filtered
        segments laid out over their presence intervals up to `now`, and is `Finalized`. */
    ghost predicate Assembled(timelines: map<int, seq<Segment>>, start: int, now: int)
      reads this, users.Values
    {
      forall id :: id in timelines ==>
        && id in users && Finalized(timelines[id], users[id].presenceHistory, start, now)
        && timelines[id] == Timeline(Filtered(users[id].audioSegments, now),
                                     IntervalsLimited(users[id].presenceHistory, start, now), start, now)
    }

    /** Adding a tracked user's timeline, built for the duration from `start` to `now`, keeps
        the timelines assembled. */
    lemma AssembledAdd(timelines: map<int, seq<Segment>>, id: int, t: seq<Segment>, start: int, now: int)
      requires Valid() && Assembled(timelines, start, now)
      requires id in users && users[id].meetingStart == start
      requires t == Timeline(Filtered(users[id].audioSegments, start + (now - start)),
                             IntervalsLimited(users[id].presenceHistory, start, start + (now - start)),
                             start, start + (now - start))
      ensures Assembled(timelines[id := t], start, now)
    {
      var segs := users[id].audioSegments;
      var h := users[id].presenceHistory;
      assert users[id].Valid();
      assert AllAudio(segs);
      assert start + (now - start) == now;
      TrackerTimelineFacts(segs, h, start, now);
    }

    /** Stops the recording at `now` and assembles every user's timeline with the same total
        duration `now - start`: each is that user's filtered segments laid out over their
        presence intervals up to `now`, every timeline ends by that instant, and with a
        monotonic clock each one ends exactly there. */
    method StopRecording(now: int) returns (timelines: map<int, seq<Segment>>)
      requires Valid()
      requires meetingStartTime.Some?
      requires forall id :: id in users ==> users[id].meetingStart == meetingStartTime.value
      modifies this`meetingEndTime
      ensures meetingEndTime == Some(now)
      ensures forall id :: id in timelines <==> id in users
      ensures forall id :: id in timelines ==>
        timelines[id] == Timeline(Filtered(users[id].audioSegments, now),
                                  IntervalsLimited(users[id].presenceHistory, meetingStartTime.value, now),
                                  meetingStartTime.value, now)
      ensures forall id :: id in timelines ==>
        Finalized(timelines[id], users[id].presenceHistory, meetingStartTime.value, now)
    {
      meetingEndTime := Some(now);
      var start := meetingStartTime.value;
      timelines := map[];
      for i := 0 to |userOrder|
        invariant meetingEndTime == Some(now)
        invariant forall id :: id in timelines <==> id in userOrder[..i]
        invariant Assembled(timelines, start, now)
      {
        var id := userOrder[i];
        assert id in users && users[id].Valid() && users[id].meetingStart == start;
        var t := BuildCompleteTimeline(users[id].audioSegments, users[id].presenceHistory, start, now - start);
        AssembledAdd(timelines, id, t, start, now);
        PrefixSnoc(userOrder, i);
        timelines := timelines[id := t];
      }
      assert userOrder[..|userOrder|] == userOrder;
    }
  }
}
