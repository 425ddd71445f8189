/** The older recorder: a tracker with an explicit `is_present` flag, presence intervals without
    the end-of-meeting cut-off, a timeline that only fills gaps longer than 0.2 s, and the
    meeting-recorder manager with its idle watchdog and table of active recordings.

    Time is counted in ticks of 1/48000 s, as in `MeetingRecorder`. */
module MeetingRecorderOld {
  import opened Common
  import opened MR = MeetingRecorder

  /** Gaps inside a present interval are filled only when longer than 0.2 s (9600 ticks). */
  const MinGap: nat := 9600

  // ---------------------------------------------------------------------------
  // Filtering (the end is clipped; the data is kept whole)

  /** A segment ending after `actualEnd` gets `actualEnd` as its end; its data is kept. */
  function ClipEnd(s: Segment, actualEnd: int): (r: Segment)
    ensures r.start == s.start && r.kind == s.kind && r.data == s.data
    ensures r.end == Min(s.end, actualEnd)
  {
    if s.end > actualEnd then Segment(s.start, actualEnd, s.kind, s.data) else s
  }

  /** Drop the segments starting at or after `actualEnd` and clip the ends of the rest. */
  function ClipEnds(segs: seq<Segment>, actualEnd: int): (r: seq<Segment>)
    ensures |r| <= |segs|
    ensures forall i :: 0 <= i < |r| ==> r[i].start < actualEnd && r[i].end <= actualEnd
  {
    if segs == [] then []
    else if segs[0].start >= actualEnd then ClipEnds(segs[1..], actualEnd)
    else [ClipEnd(segs[0], actualEnd)] + ClipEnds(segs[1..], actualEnd)
  }

  /** The filtering loop of the old timeline builder. */
  method ClipEndsLoop(sorted: seq<Segment>, actualEnd: int) returns (filtered: seq<Segment>)
    ensures filtered == ClipEnds(sorted, actualEnd)
  {
    filtered := [];
    var i := 0;
    while i < |sorted|
      invariant 0 <= i <= |sorted|
      invariant filtered + ClipEnds(sorted[i..], actualEnd) == ClipEnds(sorted, actualEnd)
    {
      assert sorted[i..][1..] == sorted[i + 1..];
      var s := sorted[i];
      if s.start < actualEnd {
        filtered := filtered + [ClipEnd(s, actualEnd)];
      }
      i := i + 1;
    }
    assert sorted[i..] == [];
  }

  // ---------------------------------------------------------------------------
  // Timeline entries

  /** An entry spans a non-empty time range ending by `bound`, and silence is zero bytes of
      its length. */
  predicate EntryOk(e: Segment, bound: int) {
    && e.start < e.end <= bound
    && (e.kind == Silence ==> e.data == SilencePcm(e.end - e.start))
  }

  predicate EntriesOk(t: seq<Segment>, bound: int) {
    forall i :: 0 <= i < |t| ==> EntryOk(t[i], bound)
  }

  lemma EntriesOkConcat(t: seq<Segment>, u: seq<Segment>, inner: int, bound: int)
    requires EntriesOk(t, bound) && EntriesOk(u, inner) && inner <= bound
    ensures EntriesOk(t + u, bound)
  {
  }

  // ---------------------------------------------------------------------------
  // The old timeline (`_build_complete_timeline`)

  /** Silence over a gap inside a present interval, only when the gap is longer than 0.2 s. */
  function LongGap(from: int, to: int): (g: seq<Segment>)
    ensures AudioOf(g) == [] && |g| <= 1
    ensures g != [] ==> g[0].kind == Silence && g[0].start == from && g[0].end == to
    ensures forall k :: 0 <= k < |g| ==> EntryOk(g[k], to) && g[k].end - g[k].start > MinGap
    ensures g == [] <==> to - from <= MinGap
  {
    if to - from > MinGap then [SilenceSegment(from, to)] else []
  }

  /** The part of `seg` inside [ivStart, ivEnd), kept with the segment's whole data, or
      nothing when there is no such part. A non-empty segment and a non-empty interval give a
      part exactly when the segment starts before the interval ends and ends after it starts. */
  function Cut(seg: Segment, ivStart: int, ivEnd: int): (c: seq<Segment>)
    ensures |c| <= 1
    ensures seg.start < seg.end && ivStart < ivEnd ==>
      (c != [] <==> seg.start < ivEnd && ivStart < seg.end)
    ensures c != [] ==>
      && c[0].kind == Audio && c[0].data == seg.data
      && c[0].start == Max(seg.start, ivStart) && c[0].end == Min(seg.end, ivEnd)
      && EntryOk(c[0], ivEnd) && ivStart <= c[0].start
  {
    if Max(seg.start, ivStart) < Min(seg.end, ivEnd) then
      [Segment(Max(seg.start, ivStart), Min(seg.end, ivEnd), Audio, seg.data)]
    else []
  }

  /** The parts of the segments inside [ivStart, ivEnd), in order. */
  function CutAll(segs: seq<Segment>, ivStart: int, ivEnd: int): (r: seq<Segment>)
    ensures |r| <= |segs|
  {
    if segs == [] then [] else Cut(segs[0], ivStart, ivEnd) + CutAll(segs[1..], ivStart, ivEnd)
  }

  /** A present interval [ivStart, ivEnd) of the old builder, laid out from `cur` with the
      filtered segments from `i` on: a segment ending by `ivStart` is skipped; any other
      segment starting before `ivEnd` gets silence before it when the gap is over 0.2 s, then
      its part inside the interval, and the layout continues from the end of that part; the
      first segment starting at or after `ivEnd` stops the layout, and silence closes the
      interval when what is left of it is over 0.2 s. */
  function PresentOld(segs: seq<Segment>, i: nat, cur: int, ivStart: int, ivEnd: int): (r: Layout)
    requires i <= |segs|
    ensures i <= r.next <= |segs|
    ensures forall k :: i <= k < r.next ==> segs[k].start < ivEnd
    ensures r.next < |segs| ==> segs[r.next].start >= ivEnd
    decreases |segs| - i
  {
    if i < |segs| && segs[i].start < ivEnd then
      if segs[i].end <= ivStart then PresentOld(segs, i + 1, cur, ivStart, ivEnd)
      else
        Layout(LongGap(cur, segs[i].start) + Cut(segs[i], ivStart, ivEnd)
               + PresentOld(segs, i + 1, Min(segs[i].end, ivEnd), ivStart, ivEnd).entries,
               PresentOld(segs, i + 1, Min(segs[i].end, ivEnd), ivStart, ivEnd).next)
    else Layout(LongGap(cur, ivEnd), i)
  }

  /** The audio of a present interval is the part inside the interval of every segment it
      consumed, in order. */
  lemma {:induction false} PresentOldAudio(segs: seq<Segment>, i: nat, cur: int, ivStart: int, ivEnd: int)
    requires i <= |segs|
    ensures AudioOf(PresentOld(segs, i, cur, ivStart, ivEnd).entries)
            == CutAll(segs[i..PresentOld(segs, i, cur, ivStart, ivEnd).next], ivStart, ivEnd)
    decreases |segs| - i
  {
    var r := PresentOld(segs, i, cur, ivStart, ivEnd);
    if i < |segs| && segs[i].start < ivEnd {
      var seg := segs[i];
      SliceCons(segs, i, r.next);
      assert segs[i..r.next][1..] == segs[i + 1..r.next];
      if seg.end <= ivStart {
        PresentOldAudio(segs, i + 1, cur, ivStart, ivEnd);
        assert Cut(seg, ivStart, ivEnd) == [];
      } else {
        var rest := PresentOld(segs, i + 1, Min(seg.end, ivEnd), ivStart, ivEnd);
        var g := LongGap(cur, seg.start);
        var c := Cut(seg, ivStart, ivEnd);
        PresentOldAudio(segs, i + 1, Min(seg.end, ivEnd), ivStart, ivEnd);
        assert r.entries == g + c + rest.entries;
        AudioOfAppend(g, c);
        AudioOfAppend(g + c, rest.entries);
        if c != [] {
          assert AudioOf(c) == [c[0]] + AudioOf([]);
        }
        assert AudioOf(c) == c;
      }
    } else {
      assert segs[i..r.next] == [];
    }
  }

  /** Silence fills only gaps over 0.2 s and audio starts inside the interval from `ivStart`. */
  predicate PresentEntriesOk(t: seq<Segment>, ivStart: int) {
    forall k :: 0 <= k < |t| ==>
      (t[k].kind == Silence ==> t[k].end - t[k].start > MinGap) && (t[k].kind == Audio ==> ivStart <= t[k].start)
  }

  lemma PresentOkConcat(t: seq<Segment>, u: seq<Segment>, ivStart: int, ivEnd: int)
    requires EntriesOk(t, ivEnd) && PresentEntriesOk(t, ivStart)
    requires EntriesOk(u, ivEnd) && PresentEntriesOk(u, ivStart)
    ensures EntriesOk(t + u, ivEnd) && PresentEntriesOk(t + u, ivStart)
  {
  }

  /** The silence and the part placed for one segment starting before `ivEnd`. */
  lemma GapCutOk(cur: int, seg: Segment, ivStart: int, ivEnd: int)
    requires seg.start < ivEnd
    ensures EntriesOk(LongGap(cur, seg.start) + Cut(seg, ivStart, ivEnd), ivEnd)
    ensures PresentEntriesOk(LongGap(cur, seg.start) + Cut(seg, ivStart, ivEnd), ivStart)
  {
    PresentOkConcat(LongGap(cur, seg.start), Cut(seg, ivStart, ivEnd), ivStart, ivEnd);
  }

  /** Every entry of a present interval is non-empty and ends by `ivEnd`, its silence is
      zero bytes and only for gaps over 0.2 s, and its audio starts inside the interval. */
  lemma {:induction false} PresentOldOk(segs: seq<Segment>, i: nat, cur: int, ivStart: int, ivEnd: int)
    requires i <= |segs|
    ensures EntriesOk(PresentOld(segs, i, cur, ivStart, ivEnd).entries, ivEnd)
    ensures PresentEntriesOk(PresentOld(segs, i, cur, ivStart, ivEnd).entries, ivStart)
    decreases |segs| - i
  {
    if i < |segs| && segs[i].start < ivEnd {
      var seg := segs[i];
      if seg.end <= ivStart {
        PresentOldOk(segs, i + 1, cur, ivStart, ivEnd);
      } else {
        var rest := PresentOld(segs, i + 1, Min(seg.end, ivEnd), ivStart, ivEnd).entries;
        var gc := LongGap(cur, seg.start) + Cut(seg, ivStart, ivEnd);
        PresentOldOk(segs, i + 1, Min(seg.end, ivEnd), ivStart, ivEnd);
        assert PresentOld(segs, i, cur, ivStart, ivEnd).entries == gc + rest;
        GapCutOk(cur, seg, ivStart, ivEnd);
        PresentOkConcat(gc, rest, ivStart, ivEnd);
      }
    }
  }

  /** One presence interval of the old builder, entered at `current` and cut at `actualEnd`:
      an absent interval is at most one silence entry (up to the cut end) and consumes no
      segment; a present one is laid out by `PresentOld`. */
  function IntervalOld(segs: seq<Segment>, i: nat, current: int, iv: Interval, actualEnd: int): (r: Layout)
    requires i <= |segs|
    ensures i <= r.next <= |segs|
    ensures !iv.present ==>
      && r.next == i && AudioOf(r.entries) == [] && |r.entries| <= 1
      && (r.entries != [] <==> Max(current, iv.start) < Min(iv.end, actualEnd))
  {
    if iv.present then PresentOld(segs, i, Max(current, iv.start), iv.start, Min(iv.end, actualEnd))
    else Layout(Gap(Max(current, iv.start), Min(iv.end, actualEnd)), i)
  }

  /** The old timeline from interval `n` on, entered at `current` with the segments from `i`
      on still to place; each interval moves `current` to its cut end, and after the last one
      the meeting is padded with silence up to `actualEnd`. */
  function TimelineOldFrom(segs: seq<Segment>, intervals: seq<Interval>, n: nat, i: nat, current: int,
                           actualEnd: int): seq<Segment>
    requires n <= |intervals| && i <= |segs|
    decreases |intervals| - n
  {
    if n == |intervals| then Gap(current, actualEnd)
    else
      IntervalOld(segs, i, current, intervals[n], actualEnd).entries
      + TimelineOldFrom(segs, intervals, n + 1, IntervalOld(segs, i, current, intervals[n], actualEnd).next,
                        Min(intervals[n].end, actualEnd), actualEnd)
  }

  function TimelineOld(segs: seq<Segment>, intervals: seq<Interval>, start: int, actualEnd: int): seq<Segment> {
    TimelineOldFrom(segs, intervals, 0, 0, start, actualEnd)
  }

  /** One interval of the old timeline: its layout, then the timeline from the next one. */
  lemma TimelineOldStep(segs: seq<Segment>, intervals: seq<Interval>, n: nat, i: nat, current: int,
                        actualEnd: int)
    requires n < |intervals| && i <= |segs|
    ensures TimelineOldFrom(segs, intervals, n, i, current, actualEnd)
            == IntervalOld(segs, i, current, intervals[n], actualEnd).entries
               + TimelineOldFrom(segs, intervals, n + 1, IntervalOld(segs, i, current, intervals[n], actualEnd).next,
                                 Min(intervals[n].end, actualEnd), actualEnd)
  {
  }

  /** Every entry of the old timeline from interval `n` on is non-empty, ends by `actualEnd`,
      and its silence is zero bytes of its length. */
  lemma {:induction false} TimelineOldFromOk(segs: seq<Segment>, intervals: seq<Interval>, n: nat, i: nat,
                                             current: int, actualEnd: int)
    requires n <= |intervals| && i <= |segs|
    ensures EntriesOk(TimelineOldFrom(segs, intervals, n, i, current, actualEnd), actualEnd)
    decreases |intervals| - n
  {
    if n < |intervals| {
      var iv := intervals[n];
      var l := IntervalOld(segs, i, current, iv, actualEnd);
      var ivEnd := Min(iv.end, actualEnd);
      TimelineOldStep(segs, intervals, n, i, current, actualEnd);
      TimelineOldFromOk(segs, intervals, n + 1, l.next, ivEnd, actualEnd);
      if iv.present {
        PresentOldOk(segs, i, Max(current, iv.start), iv.start, ivEnd);
      }
      assert EntriesOk(l.entries, ivEnd);
      EntriesOkConcat(l.entries, TimelineOldFrom(segs, intervals, n + 1, l.next, ivEnd, actualEnd), actualEnd, actualEnd);
    } else {
      assert EntriesOk(Gap(current, actualEnd), actualEnd);
    }
  }

  /** Every entry of the old timeline is non-empty and ends by `actualEnd`, and its silence
      is zero bytes of its length. */
  lemma TimelineOldOk(segs: seq<Segment>, intervals: seq<Interval>, start: int, actualEnd: int)
    ensures EntriesOk(TimelineOld(segs, intervals, start, actualEnd), actualEnd)
  {
    TimelineOldFromOk(segs, intervals, 0, 0, start, actualEnd);
  }

  /** Placing segment `k` of a present interval after `done`: its silence, its part inside
      the interval, and the rest laid out from the end of that part. */
  lemma PlaceOld(done: seq<Segment>, segs: seq<Segment>, k: nat, cur: int, ivStart: int, ivEnd: int)
    requires k < |segs| && segs[k].start < ivEnd && segs[k].end > ivStart
    ensures done + PresentOld(segs, k, cur, ivStart, ivEnd).entries
      == done + LongGap(cur, segs[k].start) + Cut(segs[k], ivStart, ivEnd)
         + PresentOld(segs, k + 1, Min(segs[k].end, ivEnd), ivStart, ivEnd).entries
    ensures PresentOld(segs, k, cur, ivStart, ivEnd).next
      == PresentOld(segs, k + 1, Min(segs[k].end, ivEnd), ivStart, ivEnd).next
  {
    var g := LongGap(cur, segs[k].start);
    var c := Cut(segs[k], ivStart, ivEnd);
    var rest := PresentOld(segs, k + 1, Min(segs[k].end, ivEnd), ivStart, ivEnd).entries;
    assert PresentOld(segs, k, cur, ivStart, ivEnd).entries == g + c + rest;
    AppendAssoc(done, g + c, rest);
    AppendAssoc(done, g, c);
  }

  /** The segment loop and closing silence of a present interval in the old builder; the
      result is `PresentOld`. */
  method LayOutPresentOld(segs: seq<Segment>, segIdx: nat, from: int, ivStart: int, ivEnd: int)
    returns (entries: seq<Segment>, next: nat)
    requires segIdx <= |segs|
    ensures entries == PresentOld(segs, segIdx, from, ivStart, ivEnd).entries
    ensures next == PresentOld(segs, segIdx, from, ivStart, ivEnd).next
  {
    entries := [];
    next := segIdx;
    var cur := from;
    assert [] + PresentOld(segs, segIdx, from, ivStart, ivEnd).entries == PresentOld(segs, segIdx, from, ivStart, ivEnd).entries;
    while next < |segs| && segs[next].start < ivEnd
      invariant segIdx <= next <= |segs|
      invariant PresentOld(segs, segIdx, from, ivStart, ivEnd).entries
                == entries + PresentOld(segs, next, cur, ivStart, ivEnd).entries
      invariant PresentOld(segs, segIdx, from, ivStart, ivEnd).next == PresentOld(segs, next, cur, ivStart, ivEnd).next
      decreases |segs| - next
    {
      var seg := segs[next];
      if seg.end <= ivStart {
        next := next + 1;
        continue;
      }
      PlaceOld(entries, segs, next, cur, ivStart, ivEnd);
      entries := entries + LongGap(cur, seg.start) + Cut(seg, ivStart, ivEnd);
      cur := Min(seg.end, ivEnd);
      next := next + 1;
    }
    entries := entries + LongGap(cur, ivEnd);
  }

  /** The assembly loop of the old builder: intervals are cut at `actualEnd`, absent ones
      become silence, present ones go through `LayOutPresentOld`, and the rest of the meeting
      is padded with silence; the result is `TimelineOld`. */
  method AssembleTimelineOld(filtered: seq<Segment>, intervals: seq<Interval>, start: int, actualEnd: int)
    returns (timeline: seq<Segment>)
    ensures timeline == TimelineOld(filtered, intervals, start, actualEnd)
  {
    timeline := [];
    var current := start;
    var segIdx := 0;
    var n := 0;
    while n < |intervals|
      invariant 0 <= n <= |intervals| && 0 <= segIdx <= |filtered|
      invariant timeline + TimelineOldFrom(filtered, intervals, n, segIdx, current, actualEnd)
                == TimelineOld(filtered, intervals, start, actualEnd)
    {
      var iv := intervals[n];
      var ivCurrent := Max(current, iv.start);
      var ivEnd := Min(iv.end, actualEnd);
      var entries, next;
      if !iv.present {
        entries, next := Gap(ivCurrent, ivEnd), segIdx;
      } else {
        entries, next := LayOutPresentOld(filtered, segIdx, ivCurrent, iv.start, ivEnd);
      }
      TimelineOldStep(filtered, intervals, n, segIdx, current, actualEnd);
      AppendAssoc(timeline, entries, TimelineOldFrom(filtered, intervals, n + 1, next, ivEnd, actualEnd));
      timeline := timeline + entries;
      segIdx := next;
      current := ivEnd;
      n := n + 1;
    }
    timeline := timeline + Gap(current, actualEnd);
  }

  // ---------------------------------------------------------------------------
  // Presence intervals (`_get_presence_intervals`)

  /** The intervals from mark `k` of the history on, the current interval having opened at
      `cur` with flag `curPresent`: a mark at a later time closes the current interval, every
      mark opens the next one with its own flag, and the last interval runs up to
      `meetingEnd` when it opened before it. Unlike the newer recorder, marks after the end
      are not a cut-off. */
  function IntervalsOldFrom(h: seq<Mark>, k: nat, cur: int, curPresent: bool, meetingEnd: int): seq<Interval>
    requires k <= |h|
    decreases |h| - k
  {
    if k < |h| then
      (if cur < h[k].time then [Interval(cur, h[k].time, curPresent)] else [])
      + IntervalsOldFrom(h, k + 1, h[k].time, h[k].present, meetingEnd)
    else if cur < meetingEnd then [Interval(cur, meetingEnd, curPresent)]
    else []
  }

  /** The presence intervals of the old tracker; an empty history counts as one present
      interval from the meeting start to `meetingEnd`, whatever their order. */
  function IntervalsOld(h: seq<Mark>, meetingStart: int, meetingEnd: int): seq<Interval> {
    if h == [] then [Interval(meetingStart, meetingEnd, true)]
    else IntervalsOldFrom(h, 1, meetingStart, h[0].present, meetingEnd)
  }

  /** Every interval is non-empty. */
  predicate NonEmpty(iv: seq<Interval>) {
    forall j :: 0 <= j < |iv| ==> iv[j].start < iv[j].end
  }

  lemma {:induction false} IntervalsOldFromNonEmpty(h: seq<Mark>, k: nat, cur: int, curPresent: bool, meetingEnd: int)
    requires k <= |h|
    ensures NonEmpty(IntervalsOldFrom(h, k, cur, curPresent, meetingEnd))
    decreases |h| - k
  {
    if k < |h| {
      IntervalsOldFromNonEmpty(h, k + 1, h[k].time, h[k].present, meetingEnd);
    }
  }

  /** In a chronological history scanned from the mark that opened the current interval, the
      intervals tile [cur, top), `top` being the later of the last mark and `meetingEnd`, and
      there are none when `cur` has reached `top`. */
  lemma {:induction false} IntervalsOldFromTiles(h: seq<Mark>, k: nat, cur: int, curPresent: bool, meetingEnd: int,
                                                 top: int)
    requires 1 <= k <= |h| && Chronological(h) && h[k - 1] == Mark(cur, curPresent)
    requires top == Max(h[|h| - 1].time, meetingEnd)
    ensures cur < top ==> Tiles(IntervalsOldFrom(h, k, cur, curPresent, meetingEnd), cur, top)
    ensures top <= cur ==> IntervalsOldFrom(h, k, cur, curPresent, meetingEnd) == []
    decreases |h| - k
  {
    if k < |h| {
      var m := h[k];
      var rest := IntervalsOldFrom(h, k + 1, m.time, m.present, meetingEnd);
      IntervalsOldFromTiles(h, k + 1, m.time, m.present, meetingEnd, top);
      assert cur <= m.time <= h[|h| - 1].time;
      if cur < m.time {
        var x := Interval(cur, m.time, curPresent);
        assert IntervalsOldFrom(h, k, cur, curPresent, meetingEnd) == [x] + rest;
        if m.time < top {
          TilesCons(x, rest, top);
        } else {
          assert [x] + rest == [x];
        }
      }
    }
  }

  /** In a chronological history scanned from the mark that opened the current interval,
      each interval opens at the mark in force at its start and carries that mark's flag. */
  lemma {:induction false} IntervalsOldFromFlags(h: seq<Mark>, k: nat, cur: int, curPresent: bool, meetingEnd: int)
    requires 1 <= k <= |h| && Chronological(h) && h[k - 1] == Mark(cur, curPresent)
    ensures FlagsInForce(h, IntervalsOldFrom(h, k, cur, curPresent, meetingEnd))
    decreases |h| - k
  {
    if k < |h| {
      IntervalsOldFromFlags(h, k + 1, h[k].time, h[k].present, meetingEnd);
      if cur < h[k].time {
        MarkInForceAt(h, k - 1, cur);
      }
    } else if cur < meetingEnd {
      MarkInForceAt(h, k - 1, cur);
    }
  }

  /** The old tracker's presence intervals, for a history opening at the meeting start, are
      non-empty; with a monotonic clock they tile the meeting from its start up to the later
      of the last mark and `meetingEnd` (so intervals after the end are kept), and each carries
      the flag of the last mark at or before its start. */
  lemma IntervalsOldFacts(h: seq<Mark>, meetingStart: int, meetingEnd: int)
    requires |h| >= 1 && h[0].time == meetingStart
    ensures NonEmpty(IntervalsOld(h, meetingStart, meetingEnd))
    ensures Chronological(h) && meetingStart < Max(h[|h| - 1].time, meetingEnd) ==>
      Tiles(IntervalsOld(h, meetingStart, meetingEnd), meetingStart, Max(h[|h| - 1].time, meetingEnd))
    ensures Chronological(h) ==> FlagsInForce(h, IntervalsOld(h, meetingStart, meetingEnd))
  {
    IntervalsOldFromNonEmpty(h, 1, meetingStart, h[0].present, meetingEnd);
    if Chronological(h) {
      IntervalsOldFromTiles(h, 1, meetingStart, h[0].present, meetingEnd, Max(h[|h| - 1].time, meetingEnd));
      IntervalsOldFromFlags(h, 1, meetingStart, h[0].present, meetingEnd);
    }
  }

  // ---------------------------------------------------------------------------
  // The old tracker

  class UserAudioTracker {
    const userId: int
    const meetingStart: int
    var audioSegments: seq<Segment>
    var isPresent: bool
    var lastAudioTime: int
    var presenceHistory: seq<Mark>

    /** The history starts present at the meeting start and alternates, and the flag is its
        last state. */
    ghost predicate Valid()
      reads this
    {
      && |presenceHistory| >= 1
      && presenceHistory[0] == Mark(meetingStart, true)
      && Alternates(presenceHistory)
      && isPresent == presenceHistory[|presenceHistory| - 1].present
      && forall i :: 0 <= i < |audioSegments| ==>
           audioSegments[i].kind == Audio && audioSegments[i].end - audioSegments[i].start >= MinFrames
    }

    constructor (userId: int, meetingStart: int)
      ensures Valid() && this.userId == userId && this.meetingStart == meetingStart
      ensures audioSegments == [] && isPresent && lastAudioTime == meetingStart
      ensures presenceHistory == [Mark(meetingStart, true)]
    {
      this.userId := userId;
      this.meetingStart := meetingStart;
      audioSegments := [];
      isPresent := true;
      lastAudioTime := meetingStart;
      presenceHistory := [Mark(meetingStart, true)];
    }

    /** Flips the flag to present and records it, only when the user was absent. */
    method MarkPresent(timestamp: int)
      requires Valid()
      modifies this`isPresent, this`presenceHistory
      ensures Valid() && isPresent
      ensures presenceHistory == Observed(old(presenceHistory), true, timestamp)
    {
      if !isPresent {
        isPresent := true;
        presenceHistory := presenceHistory + [Mark(timestamp, true)];
      }
    }

    /** Flips the flag to absent and records it, only when the user was present. */
    method MarkAbsent(timestamp: int)
      requires Valid()
      modifies this`isPresent, this`presenceHistory
      ensures Valid() && !isPresent
      ensures presenceHistory == Observed(old(presenceHistory), false, timestamp)
    {
      if isPresent {
        isPresent := false;
        presenceHistory := presenceHistory + [Mark(timestamp, false)];
      }
    }

    /** Empty or sub-frame chunks change nothing. Otherwise the chunk is cut to whole frames, an
        absent user is first marked present, and the chunk is stored unless it is under 1 ms;
        `last_audio_time` becomes the chunk's start. */
    method AddAudioData(timestamp: int, pcm: seq<byte>)
      requires Valid()
      modifies this
      ensures Valid()
      ensures AlignPcm(Some(pcm)).None? ==>
        && audioSegments == old(audioSegments) && presenceHistory == old(presenceHistory)
        && isPresent == old(isPresent) && lastAudioTime == old(lastAudioTime)
      ensures AlignPcm(Some(pcm)).Some? ==>
        var aligned := AlignPcm(Some(pcm)).value;
        && isPresent
        && presenceHistory == Observed(old(presenceHistory), true, timestamp)
        && (|aligned| / 4 < MinFrames ==>
              audioSegments == old(audioSegments) && lastAudioTime == old(lastAudioTime))
        && (|aligned| / 4 >= MinFrames ==>
              && audioSegments == old(audioSegments) + [Segment(timestamp, timestamp + |aligned| / 4, Audio, aligned)]
              && lastAudioTime == timestamp)
    {
      var aligned := AlignPcm(Some(pcm));
      if aligned.None? {
        return;
      }
      var data := aligned.value;
      if !isPresent {
        MarkPresent(timestamp);
      }
      var frames := |data| / 4;
      if frames < MinFrames {
        return;
      }
      audioSegments := audioSegments + [Segment(timestamp, timestamp + frames, Audio, data)];
      lastAudioTime := timestamp;
    }

    /** Records the poll time: `last_audio_time` never decreases and is at least `now`. */
    method FillSilenceGaps(now: int)
      modifies this`lastAudioTime
      ensures lastAudioTime == Max(old(lastAudioTime), now)
      ensures lastAudioTime >= old(lastAudioTime) && lastAudioTime >= now
    {
      lastAudioTime := Max(lastAudioTime, now);
    }

    /** `_get_presence_intervals`: the scan of the history gives `IntervalsOld`, whose
        intervals `IntervalsOldFacts` describes. The empty-history branch gives one present
        interval even when `meetingEnd` is not after the start; a tracker never reaches it,
        since its constructor seeds the history. */
    method PresenceIntervals(meetingEnd: int) returns (intervals: seq<Interval>)
      ensures intervals == IntervalsOld(presenceHistory, meetingStart, meetingEnd)
    {
      if presenceHistory == [] {
        return [Interval(meetingStart, meetingEnd, true)];
      }
      intervals := [];
      var cur := meetingStart;
      var curPresent := presenceHistory[0].present;
      for k := 1 to |presenceHistory|
        invariant intervals + IntervalsOldFrom(presenceHistory, k, cur, curPresent, meetingEnd)
                  == IntervalsOld(presenceHistory, meetingStart, meetingEnd)
      {
        var mark := presenceHistory[k];
        var piece := if cur < mark.time then [Interval(cur, mark.time, curPresent)] else [];
        AppendAssoc(intervals, piece, IntervalsOldFrom(presenceHistory, k + 1, mark.time, mark.present, meetingEnd));
        if cur < mark.time {
          intervals := intervals + [Interval(cur, mark.time, curPresent)];
        } else {
          assert intervals + piece == intervals;
        }
        cur := mark.time;
        curPresent := mark.present;
      }
      if cur < meetingEnd {
        intervals := intervals + [Interval(cur, meetingEnd, curPresent)];
      } else {
        assert intervals + [] == intervals;
      }
    }

    /** The old timeline: the segments sorted by start and clipped at the meeting's end
        (start + total duration), laid out over the presence intervals up to that end
        (`TimelineOld`); every entry spans a non-empty range ending by the meeting's end, and
        every silence entry is zero bytes of its length. */
    method BuildCompleteTimeline(totalDuration: int) returns (timeline: seq<Segment>)
      ensures timeline == TimelineOld(ClipEnds(SortByStart(audioSegments), meetingStart + totalDuration),
                                      IntervalsOld(presenceHistory, meetingStart, meetingStart + totalDuration),
                                      meetingStart, meetingStart + totalDuration)
      ensures EntriesOk(timeline, meetingStart + totalDuration)
    {
      var actualEnd := meetingStart + totalDuration;
      var sorted := SortByStart(audioSegments);
      var filtered := ClipEndsLoop(sorted, actualEnd);
      var intervals := PresenceIntervals(actualEnd);
      timeline := AssembleTimelineOld(filtered, intervals, meetingStart, actualEnd);
      TimelineOldOk(filtered, intervals, meetingStart, actualEnd);
    }
  }

  // ---------------------------------------------------------------------------
  // Idle watchdog

  /** The number of consecutive checks at the end of `checks` that saw no human. */
  function TrailingEmpty(checks: seq<bool>): (n: nat)
    ensures n <= |checks|
    ensures n < |checks| ==> checks[|checks| - 1 - n]
    ensures forall i :: |checks| - n <= i < |checks| ==> !checks[i]
  {
    if checks == [] then 0
    else if checks[|checks| - 1] then 0
    else 1 + TrailingEmpty(checks[..|checks| - 1])
  }

  /** One more check either ends the empty run or extends it by one. */
  lemma TrailingStep(checks: seq<bool>, k: nat)
    requires k < |checks|
    ensures TrailingEmpty(checks[..k + 1]) == if checks[k] then 0 else TrailingEmpty(checks[..k]) + 1
  {
    assert checks[..k + 1][..k] == checks[..k];
  }

  const CheckInterval: nat := 10
  const MaxEmptyDuration: nat := 300

  /** No check up to and including the k-th had reached the idle limit. */
  predicate QuietThrough(checks: seq<bool>, k: nat)
    requires k <= |checks|
  {
    forall j :: 0 <= j <= k ==> TrailingEmpty(checks[..j]) * CheckInterval < MaxEmptyDuration
  }

  lemma QuietExtend(checks: seq<bool>, k: nat)
    requires k < |checks| && QuietThrough(checks, k)
    requires TrailingEmpty(checks[..k + 1]) * CheckInterval < MaxEmptyDuration
    ensures QuietThrough(checks, k + 1)
  {
  }

  /** The watchdog of `_monitor_voice_channel`, fed with the outcome of each 10 s check while
      the client stays connected (`true` = a human is in the channel). `empty_duration` grows
      by 10 per empty check and resets on a non-empty one; monitoring stops at the first check
      that brings it to 300, i.e. after 30 consecutive empty checks. */
  method IdleWatchdog(humansSeen: seq<bool>) returns (checksMade: nat, stoppedIdle: bool)
    ensures checksMade <= |humansSeen|
    ensures stoppedIdle ==> TrailingEmpty(humansSeen[..checksMade]) * CheckInterval >= MaxEmptyDuration
    ensures !stoppedIdle ==> checksMade == |humansSeen|
    ensures forall j :: 0 <= j < checksMade ==> TrailingEmpty(humansSeen[..j]) * CheckInterval < MaxEmptyDuration
  {
    var emptyDuration := 0;
    checksMade := 0;
    stoppedIdle := false;
    while checksMade < |humansSeen|
      invariant checksMade <= |humansSeen|
      invariant emptyDuration == TrailingEmpty(humansSeen[..checksMade]) * CheckInterval
      invariant emptyDuration < MaxEmptyDuration
      invariant QuietThrough(humansSeen, checksMade)
    {
      TrailingStep(humansSeen, checksMade);
      ghost var k := checksMade;
      if !humansSeen[checksMade] {
        emptyDuration := emptyDuration + CheckInterval;
        if emptyDuration >= MaxEmptyDuration {
          checksMade := checksMade + 1;
          stoppedIdle := true;
          return;
        }
      } else {
        emptyDuration := 0;
      }
      QuietExtend(humansSeen, k);
      checksMade := checksMade + 1;
    }
  }

  /** Stopping for idleness takes exactly 30 consecutive empty checks. */
  lemma IdleStopNeedsThirtyEmptyChecks(humansSeen: seq<bool>, checksMade: nat)
    requires 0 < checksMade <= |humansSeen|
    requires TrailingEmpty(humansSeen[..checksMade]) * CheckInterval >= MaxEmptyDuration
    requires TrailingEmpty(humansSeen[..checksMade - 1]) * CheckInterval < MaxEmptyDuration
    ensures TrailingEmpty(humansSeen[..checksMade]) == 30
    ensures forall i :: checksMade - 30 <= i < checksMade ==> !humansSeen[i]
  {
    var prefix := humansSeen[..checksMade];
    assert prefix[..|prefix| - 1] == humansSeen[..checksMade - 1];
    assert !prefix[|prefix| - 1];
  }

  // ---------------------------------------------------------------------------
  // The manager's table of active recordings

  datatype RecordingInfo = RecordingInfo(recordingDir: string, startTime: int)

  datatype RecordingStatus = NotRecording | Recording(startTime: int, recordingDir: string)

  class MeetingRecorder {
    var activeRecordings: map<int, RecordingInfo>

    constructor ()
      ensures activeRecordings == map[]
    {
      activeRecordings := map[];
    }

    /** `get_recording_status`: recording with the stored start and directory iff the channel
        has an entry. */
    function Status(channelId: int): (s: RecordingStatus)
      reads this
      ensures s.Recording? <==> channelId in activeRecordings
      ensures s.Recording? ==>
        s.startTime == activeRecordings[channelId].startTime
        && s.recordingDir == activeRecordings[channelId].recordingDir
    {
      if channelId in activeRecordings then
        Recording(activeRecordings[channelId].startTime, activeRecordings[channelId].recordingDir)
      else NotRecording
    }

    /** `record_meeting_audio`: without a guild or the channel nothing happens; a failure while
        connecting or starting removes any entry for the channel; otherwise the entry is stored
        and the watchdog runs until the channel has been empty for 30 checks or the client
        disconnects. The entry is left in place when the watchdog ends. */
    method RecordMeetingAudio(channelId: int, channelFound: bool, startFails: bool,
                              dir: string, now: int, humansSeen: seq<bool>)
      returns (checksMade: nat, stoppedIdle: bool)
      modifies this
      ensures !channelFound ==> activeRecordings == old(activeRecordings)
      ensures channelFound && startFails ==> activeRecordings == old(activeRecordings) - {channelId}
      ensures channelFound && !startFails ==>
        activeRecordings == old(activeRecordings)[channelId := RecordingInfo(dir, now)]
      ensures checksMade <= |humansSeen|
      ensures stoppedIdle ==> TrailingEmpty(humansSeen[..checksMade]) * CheckInterval >= MaxEmptyDuration
    {
      checksMade, stoppedIdle := 0, false;
      if !channelFound {
        return;
      }
      if startFails {
        CleanupRecording(channelId);
        return;
      }
      activeRecordings := activeRecordings[channelId := RecordingInfo(dir, now)];
      checksMade, stoppedIdle := IdleWatchdog(humansSeen);
    }

    /** `_cleanup_recording`: removes the channel's entry if there is one. */
    method CleanupRecording(channelId: int)
      modifies this
      ensures activeRecordings == old(activeRecordings) - {channelId}
      ensures Status(channelId) == NotRecording
    {
      if channelId in activeRecordings {
        activeRecordings := activeRecordings - {channelId};
      }
    }

    /** An unknown channel gives False and changes nothing; otherwise the recording is stopped
        (errors are caught inside), the entry removed and True returned. */
    method StopRecording(channelId: int) returns (ok: bool)
      modifies this
      ensures ok <==> channelId in old(activeRecordings)
      ensures activeRecordings == old(activeRecordings) - {channelId}
      ensures Status(channelId) == NotRecording
    {
      if channelId !in activeRecordings {
        return false;
      }
      CleanupRecording(channelId);
      return true;
    }
  }
}
