/** The decisions the moderation cog takes about one message: which violation categories it
    reports, how the URL checks are summed up, whether the AI review may clear the message, the
    24-hour window of recent violators, and the duration and category lines of the notices. */
module ModerationFlow {
  import opened Common
  import MuteLadder
  import ViolationMapping

  // ---------------------------------------------------------------------------
  // Violation categories

  /** A moderation result's `categories` dict, in its iteration order. */
  type CategoryFlags = seq<(string, bool)>

  /** The names flagged True, in order. */
  function Flagged(flags: CategoryFlags): seq<string>
  {
    if flags == [] then [] else (if flags[0].1 then [flags[0].0] else []) + Flagged(flags[1..])
  }

  /** The flagged names of every image result, image by image. */
  function ImageFlagged(images: seq<CategoryFlags>): seq<string>
  {
    if images == [] then [] else ImageFlagged(images[..|images| - 1]) + Flagged(images[|images| - 1])
  }

  function LowerAll(threats: seq<string>): (r: seq<string>)
    ensures |r| == |threats| && forall i :: 0 <= i < |r| ==> r[i] == Lower(threats[i])
  {
    seq(|threats|, i requires 0 <= i < |threats| => Lower(threats[i]))
  }

  /** The URL threat types lowered, when the URLs are unsafe. */
  function ThreatCategories(urlUnsafe: bool, threats: seq<string>): seq<string>
  {
    if urlUnsafe then LowerAll(threats) else []
  }

  /** Every candidate in the order the cog looks at them: URL threats, text, then images. */
  function Candidates(urlUnsafe: bool, threats: seq<string>, text: CategoryFlags, images: seq<CategoryFlags>): seq<string>
  {
    ThreatCategories(urlUnsafe, threats) + (Flagged(text) + ImageFlagged(images))
  }

  /** The `if x not in violation_categories: append(x)` loop over one source of names. */
  method AppendNew(acc: seq<string>, items: seq<string>) returns (r: seq<string>)
    requires NoDuplicates(acc)
    ensures r == acc + DedupeFrom(items, acc)
  {
    r := acc;
    var i := 0;
    while i < |items|
      invariant 0 <= i <= |items|
      invariant r == acc + DedupeFrom(items[..i], acc)
    {
      DedupeFromSnoc(items[..i], items[i], acc);
      assert items[..i + 1] == items[..i] + [items[i]];
      if items[i] !in r {
        r := r + [items[i]];
      }
      i := i + 1;
    }
    assert items[..i] == items;
  }

  lemma ImageStep(pre: seq<string>, images: seq<CategoryFlags>, k: nat)
    requires k < |images|
    ensures var done := DedupeFrom(pre + ImageFlagged(images[..k]), []);
      && NoDuplicates(done)
      && DedupeFrom(pre + ImageFlagged(images[..k + 1]), []) == done + DedupeFrom(Flagged(images[k]), done)
  {
    var before := pre + ImageFlagged(images[..k]);
    assert images[..k + 1][..k] == images[..k] && images[..k + 1][k] == images[k];
    assert before + Flagged(images[k]) == pre + ImageFlagged(images[..k + 1]);
    DedupeFromAppend(before, Flagged(images[k]), []);
    assert [] + DedupeFrom(before, []) == DedupeFrom(before, []);
  }

  /** `cats` holds the deduplicated `pre` and first `k` images. */
  ghost predicate ImagesDone(cats: seq<string>, pre: seq<string>, images: seq<CategoryFlags>, k: nat) {
    k <= |images| && cats == DedupeFrom(pre + ImageFlagged(images[..k]), [])
  }

  lemma ImagesNext(pre: seq<string>, images: seq<CategoryFlags>, k: nat, done: seq<string>, cats: seq<string>)
    requires ImagesDone(done, pre, images, k) && k < |images| && NoDuplicates(done)
    requires cats == done + DedupeFrom(Flagged(images[k]), done)
    ensures ImagesDone(cats, pre, images, k + 1)
  {
    ImageStep(pre, images, k);
  }

  /** The image part of the loop: `acc` already holds the deduplicated `pre`. */
  method AppendImages(acc: seq<string>, pre: seq<string>, images: seq<CategoryFlags>) returns (cats: seq<string>)
    requires acc == DedupeFrom(pre, [])
    ensures cats == DedupeFrom(pre + ImageFlagged(images), [])
  {
    cats := acc;
    var k := 0;
    ImagesStart(pre, images);
    while k < |images|
      invariant ImagesDone(cats, pre, images, k)
    {
      ImageStep(pre, images, k);
      ghost var done := cats;
      cats := AppendNew(cats, Flagged(images[k]));
      ImagesNext(pre, images, k, done, cats);
      k := k + 1;
    }
    ImagesEnd(cats, pre, images, k);
  }

  lemma ImagesStart(pre: seq<string>, images: seq<CategoryFlags>)
    ensures ImagesDone(DedupeFrom(pre, []), pre, images, 0)
  {
    assert images[..0] == [] && pre + [] == pre;
    assert pre + ImageFlagged(images[..0]) == pre;
  }

  lemma ImagesEnd(cats: seq<string>, pre: seq<string>, images: seq<CategoryFlags>, k: nat)
    requires ImagesDone(cats, pre, images, k) && k >= |images|
    ensures cats == DedupeFrom(pre + ImageFlagged(images), [])
  {
    assert images[..k] == images;
  }

  /** `violation_categories` of `on_message`: the candidates with repeats removed, first
      occurrence kept. */
  method CollectCategories(urlUnsafe: bool, threats: seq<string>, text: CategoryFlags, images: seq<CategoryFlags>)
    returns (cats: seq<string>)
    ensures cats == Dedupe(Candidates(urlUnsafe, threats, text, images))
  {
    var t := ThreatCategories(urlUnsafe, threats);
    cats := AppendNew([], t);
    assert cats == Dedupe(t);
    cats := AppendNew(cats, Flagged(text));
    DedupeTwo(t, Flagged(text));
    assert cats == DedupeFrom(t + Flagged(text), []);
    cats := AppendImages(cats, t + Flagged(text), images);
    CandidatesSplit(urlUnsafe, threats, text, images);
  }

  lemma DedupeTwo(a: seq<string>, b: seq<string>)
    ensures DedupeFrom(a + b, []) == Dedupe(a) + DedupeFrom(b, Dedupe(a))
  {
    DedupeFromAppend(a, b, []);
    assert [] + DedupeFrom(a, []) == DedupeFrom(a, []);
  }

  lemma CandidatesSplit(urlUnsafe: bool, threats: seq<string>, text: CategoryFlags, images: seq<CategoryFlags>)
    ensures Dedupe(Candidates(urlUnsafe, threats, text, images))
         == DedupeFrom(ThreatCategories(urlUnsafe, threats) + Flagged(text) + ImageFlagged(images), [])
  {
    var t := ThreatCategories(urlUnsafe, threats);
    assert t + Flagged(text) + ImageFlagged(images) == Candidates(urlUnsafe, threats, text, images);
  }

  /** The reported categories hold no repeats, hold exactly the candidates, start with the
      (lowered, deduplicated) URL threat types, and include no threat type for safe URLs. */
  lemma ViolationCategoriesSpec(urlUnsafe: bool, threats: seq<string>, text: CategoryFlags, images: seq<CategoryFlags>)
    ensures var r := Dedupe(Candidates(urlUnsafe, threats, text, images));
      && NoDuplicates(r)
      && (forall c :: c in r <==> c in Candidates(urlUnsafe, threats, text, images))
      && |Dedupe(ThreatCategories(urlUnsafe, threats))| <= |r|
      && r[..|Dedupe(ThreatCategories(urlUnsafe, threats))|] == Dedupe(ThreatCategories(urlUnsafe, threats))
      && (!urlUnsafe ==> forall c :: c in r <==> c in Flagged(text) + ImageFlagged(images))
  {
    var t := ThreatCategories(urlUnsafe, threats);
    var rest := Flagged(text) + ImageFlagged(images);
    DedupeFromAppend(t, rest, []);
    assert [] + DedupeFrom(t, []) == DedupeFrom(t, []);
    var r := Dedupe(Candidates(urlUnsafe, threats, text, images));
    forall c ensures c in r <==> c in Candidates(urlUnsafe, threats, text, images) {
      if c in Candidates(urlUnsafe, threats, text, images) {
        var i :| 0 <= i < |Candidates(urlUnsafe, threats, text, images)| && Candidates(urlUnsafe, threats, text, images)[i] == c;
      }
    }
    if !urlUnsafe {
      assert Candidates(urlUnsafe, threats, text, images) == rest;
    }
  }

  // ---------------------------------------------------------------------------
  // URL results

  /** One entry of `url_results` (missing keys read as the defaults). */
  datatype UrlResult = UrlResult(url: string, isUnsafe: bool, threatTypes: seq<string>, severity: int, reason: Option<string>)

  /** `url_check_result` for unsafe URLs. */
  datatype UrlCheck = UrlCheck(unsafeUrls: seq<string>, threatTypes: set<string>, severity: int, reasons: Option<set<string>>)

  predicate HasThreat(r: UrlResult, t: string) {
    r.isUnsafe && t in r.threatTypes
  }

  /** A truthy reason of an unsafe result. */
  predicate GivesReason(r: UrlResult, x: string) {
    r.isUnsafe && r.reason == Some(x) && x != ""
  }

  /** `[url for url, result in url_results.items() if result.get('is_unsafe')]`. */
  function UnsafeUrls(results: seq<UrlResult>): (u: seq<string>)
    ensures |u| <= |results|
    ensures forall x :: x in u <==> exists i :: 0 <= i < |results| && results[i].isUnsafe && results[i].url == x
  {
    if results == [] then []
    else
      var rest := UnsafeUrls(results[1..]);
      assert forall i :: 0 <= i < |results[1..]| ==> results[1..][i] == results[i + 1];
      (if results[0].isUnsafe then [results[0].url] else []) + rest
  }

  /** The summary of several URL checks: the union of the unsafe results' threat types, their
      largest severity (at least 0), and their non-empty reasons, or None when there are none. */
  method AggregateUrlResults(results: seq<UrlResult>) returns (c: UrlCheck)
    ensures c.unsafeUrls == UnsafeUrls(results)
    ensures forall t :: t in c.threatTypes <==> exists i :: 0 <= i < |results| && HasThreat(results[i], t)
    ensures c.severity >= 0
    ensures forall i :: 0 <= i < |results| && results[i].isUnsafe ==> results[i].severity <= c.severity
    ensures c.severity == 0 || exists i :: 0 <= i < |results| && results[i].isUnsafe && results[i].severity == c.severity
    ensures c.reasons.None? <==> forall i, x :: 0 <= i < |results| ==> !GivesReason(results[i], x)
    ensures c.reasons.Some? ==> forall x :: x in c.reasons.value <==> exists i :: 0 <= i < |results| && GivesReason(results[i], x)
  {
    var threats: set<string> := {};
    var maxSeverity := 0;
    var reasons: set<string> := {};
    var i := 0;
    while i < |results|
      invariant 0 <= i <= |results|
      invariant forall t :: t in threats <==> exists j :: 0 <= j < i && HasThreat(results[j], t)
      invariant maxSeverity >= 0
      invariant forall j :: 0 <= j < i && results[j].isUnsafe ==> results[j].severity <= maxSeverity
      invariant maxSeverity == 0 || exists j :: 0 <= j < i && results[j].isUnsafe && results[j].severity == maxSeverity
      invariant forall x :: x in reasons <==> exists j :: 0 <= j < i && GivesReason(results[j], x)
    {
      var r := results[i];
      if r.isUnsafe {
        threats := threats + set t | t in r.threatTypes;
        maxSeverity := Max(maxSeverity, r.severity);
        if r.reason.Some? && r.reason.value != "" {
          reasons := reasons + {r.reason.value};
        }
      }
      i := i + 1;
    }
    c := UrlCheck(UnsafeUrls(results), threats, maxSeverity, if reasons == {} then None else Some(reasons));
    if reasons == {} {
      forall j, x | 0 <= j < |results| ensures !GivesReason(results[j], x) {
        assert x !in reasons;
      }
    } else {
      var x :| x in reasons;
    }
  }

  // ---------------------------------------------------------------------------
  // AI review and the unsafe-URL override

  datatype Review = Review(isViolation: bool, reason: string, originalResponse: string)

  /** How the review call went: not made, returned a verdict, or raised. */
  datatype ReviewCall = NotRun | Returned(review: Review) | Failed(error: string)

  const UnsafeLinkReason: string := "訊息包含不安全的連結，這些連結可能含有詐騙、釣魚或惡意軟體內容。"
  const UrlSafetyTag: string := "URL_SAFETY_CHECK: Unsafe URLs detected"

  /** The review runs only when enabled, for a message with text, with some review agent, and
      never for unsafe URLs. */
  predicate ReviewRuns(reviewEnabled: bool, text: string, hasAgent: bool, urlUnsafe: bool) {
    reviewEnabled && text != "" && hasAgent && !urlUnsafe
  }

  /** `review_result` after the review step: the verdict, or on a failure a violation when three
      or more categories were flagged and nothing otherwise. */
  function ReviewResult(call: ReviewCall, categories: seq<string>): (r: Option<Review>)
    ensures call.Returned? ==> r == Some(call.review)
    ensures call.Failed? ==> (r.Some? <==> |categories| >= 3) && (r.Some? ==> r.value.isViolation)
    ensures call.NotRun? ==> r.None?
  {
    match call
    case NotRun => None
    case Returned(review) => Some(review)
    case Failed(e) =>
      if |categories| >= 3 then
        Some(Review(true, "評估過程出錯，但內容觸發了多種違規類型(" + Join(categories[..3], ", ") + ")，系統判定為違規。",
                    "ERROR: " + e))
      else None
  }

  /** Unsafe URLs are always violations: a missing review becomes the unsafe-link verdict and a
      non-violation verdict is turned into one; safe URLs leave the review as it is. */
  function OverrideForUnsafeUrl(review: Option<Review>, urlUnsafe: bool): (r: Option<Review>)
    ensures !urlUnsafe ==> r == review
    ensures urlUnsafe ==> r.Some? && r.value.isViolation
    ensures urlUnsafe && review.Some? && review.value.isViolation ==> r == review
    ensures urlUnsafe && review.Some? && !review.value.isViolation ==>
      r.value.originalResponse == UrlSafetyTag && EndsWith(r.value.reason, review.value.reason)
  {
    if !urlUnsafe then review
    else if review.None? then Some(Review(true, UnsafeLinkReason, UrlSafetyTag))
    else if !review.value.isViolation then
      var reason := UnsafeLinkReason + "原始審核結果: " + review.value.reason;
      assert reason[|reason| - |review.value.reason|..] == review.value.reason;
      Some(Review(true, reason, UrlSafetyTag))
    else review
  }

  datatype Action = Ignore | ProcessViolation(categories: seq<string>, review: Option<Review>)

  /** `on_message` after the URL check: skip a message with nothing to moderate, ignore one that
      is neither flagged nor carries unsafe URLs, ignore one the review clears, and otherwise
      process it with the (overridden) review. */
  function Moderate(text: string, hasImages: bool, urlUnsafe: bool, flagged: bool, categories: seq<string>,
                    reviewEnabled: bool, hasAgent: bool, call: ReviewCall): Action
  {
    if text == [] && !hasImages && !urlUnsafe then Ignore
    else if !(flagged || urlUnsafe) then Ignore
    else
      var runs := ReviewRuns(reviewEnabled, text, hasAgent, urlUnsafe);
      if runs && call.Returned? && !call.review.isViolation then Ignore
      else
        var review := if runs then ReviewResult(call, categories) else None;
        ProcessViolation(categories, OverrideForUnsafeUrl(review, urlUnsafe))
  }

  /** `_process_violation` deletes only when the review is missing or says violation. */
  predicate ShouldDelete(review: Option<Review>) {
    review.None? || review.value.isViolation
  }

  /** Every processed message was flagged or had unsafe URLs and is deleted; a message with
      unsafe URLs is always processed, without a review, under the unsafe-link verdict; an
      unflagged message with safe URLs is never processed, nor is one the review clears. */
  lemma ModerateSpec(text: string, hasImages: bool, urlUnsafe: bool, flagged: bool, categories: seq<string>,
                     reviewEnabled: bool, hasAgent: bool, call: ReviewCall)
    ensures var a := Moderate(text, hasImages, urlUnsafe, flagged, categories, reviewEnabled, hasAgent, call);
      && (a.ProcessViolation? ==> (flagged || urlUnsafe) && ShouldDelete(a.review) && a.categories == categories)
      && (urlUnsafe ==> a == ProcessViolation(categories, Some(Review(true, UnsafeLinkReason, UrlSafetyTag))))
      && (!flagged && !urlUnsafe ==> a == Ignore)
      && (ReviewRuns(reviewEnabled, text, hasAgent, urlUnsafe) && call.Returned? && !call.review.isViolation ==> a == Ignore)
  {
  }

  // ---------------------------------------------------------------------------
  // Recent violators

  /** `VIOLATION_TRACKING_WINDOW`, in seconds. */
  const TrackingWindow: int := 86400

  /** The number of tracked users above which expired entries are pruned. */
  const TrackingLimit: int := 1000

  /** One `_process_violation` check of `tracked_violators`: a user inside their window is
      recent and nothing changes; otherwise the user is tracked until `now` plus the window. */
  function TrackStep(tracked: map<int, int>, user: int, now: int): (res: (bool, map<int, int>))
    ensures res.0 <==> user in tracked && now < tracked[user]
    ensures res.0 ==> res.1 == tracked
    ensures !res.0 ==> res.1.Keys == tracked.Keys + {user} && res.1[user] == now + TrackingWindow
    ensures forall u :: u in tracked && u != user ==> u in res.1 && res.1[u] == tracked[u]
  {
    if user in tracked && now < tracked[user] then (true, tracked)
    else
      var without := if user in tracked then map u | u in tracked && u != user :: tracked[u] else tracked;
      (false, without[user := now + TrackingWindow])
  }

  /** Once tracked, a user is recent for exactly the next 24 hours. */
  lemma TrackWindow(tracked: map<int, int>, user: int, now: int, later: int)
    requires !TrackStep(tracked, user, now).0
    requires later >= now
    ensures TrackStep(TrackStep(tracked, user, now).1, user, later).0 <==> later < now + TrackingWindow
  {
  }

  /** The clean-up after a violation: past the limit, entries whose expiry is before `now` go. */
  function Pruned(tracked: map<int, int>, now: int): (r: map<int, int>)
    ensures |tracked| <= TrackingLimit ==> r == tracked
    ensures |tracked| > TrackingLimit ==> forall u :: u in r <==> u in tracked && tracked[u] >= now
    ensures forall u :: u in r ==> u in tracked && r[u] == tracked[u]
  {
    if |tracked| > TrackingLimit then map u | u in tracked && tracked[u] >= now :: tracked[u] else tracked
  }

  /** Pruning at `now` changes no later recent-violator decision. */
  lemma PruneKeepsDecisions(tracked: map<int, int>, now: int, user: int, later: int)
    requires later >= now
    ensures TrackStep(Pruned(tracked, now), user, later).0 == TrackStep(tracked, user, later).0
  {
  }

  /** `tracked_violators`, kept on the cog. */
  class ViolationTracker {
    var tracked: map<int, int>

    constructor ()
      ensures tracked == map[]
    {
      tracked := map[];
    }

    /** Returns whether the user is a recent violator, tracking them anew when not. */
    method CheckAndTrack(user: int, now: int) returns (recent: bool)
      modifies this
      ensures (recent, tracked) == TrackStep(old(tracked), user, now)
    {
      if user in tracked {
        if now < tracked[user] {
          return true;
        }
        tracked := map u | u in tracked && u != user :: tracked[u];
      }
      tracked := tracked[user := now + TrackingWindow];
      recent := false;
    }

    method PruneIfLarge(now: int)
      modifies this
      ensures tracked == Pruned(old(tracked), now)
    {
      if |tracked| > TrackingLimit {
        tracked := map u | u in tracked && tracked[u] >= now :: tracked[u];
      }
    }
  }

  // ---------------------------------------------------------------------------
  // Mute notice durations

  datatype DurationUnit = Days | Hours | Minutes

  /** `_apply_mute_with_notification`'s unit choice for a duration in seconds. */
  function DurationParts(seconds: int): (p: (int, DurationUnit))
  {
    if seconds >= 86400 then (seconds / 86400, Days)
    else if seconds >= 3600 then (seconds / 3600, Hours)
    else (seconds / 60, Minutes)
  }

  /** Days from one day up, hours from one hour up, minutes below; the amount is the whole
      number of units the duration holds. */
  lemma DurationPartsSpec(seconds: int)
    ensures var (n, u) := DurationParts(seconds);
      && (u == Days <==> seconds >= 86400)
      && (u == Hours <==> 3600 <= seconds < 86400)
      && (u == Days ==> n >= 1 && n * 86400 <= seconds < n * 86400 + 86400)
      && (u == Hours ==> 1 <= n <= 23 && n * 3600 <= seconds < n * 3600 + 3600)
      && (u == Minutes && seconds >= 0 ==> 0 <= n <= 59 && n * 60 <= seconds < n * 60 + 60)
  {
  }

  function UnitText(u: DurationUnit): string {
    match u
    case Days => "天"
    case Hours => "小時"
    case Minutes => "分鐘"
  }

  function DurationText(seconds: int): (t: string)
  {
    IntToString(DurationParts(seconds).0) + " " + UnitText(DurationParts(seconds).1)
  }

  /** The text splits on its space into the amount and the unit word. */
  lemma DurationTextReadsBack(seconds: int)
    ensures Split(DurationText(seconds), ' ') == [IntToString(DurationParts(seconds).0), UnitText(DurationParts(seconds).1)]
  {
    var parts := [IntToString(DurationParts(seconds).0), UnitText(DurationParts(seconds).1)];
    IntToStringNoSep(DurationParts(seconds).0, ' ');
    assert ' ' !in UnitText(DurationParts(seconds).1);
    assert Join(parts, " ") == DurationText(seconds);
    JoinSplit(parts, ' ');
  }

  /** The seconds of the ladder's mute for a violation count, as the timeout uses them. */
  function LadderSeconds(count: int): (s: Option<int>)
  {
    match MuteLadder.CalculateMuteDuration(count)
    case None => None
    case Some(m) => Some(60 * m)
  }

  /** The ladder's mutes read 5 分鐘, 12 小時, 7 天 and 28 天; and as every next count has a
      mute, the next-violation warning is always shown. */
  lemma LadderTexts(count: int)
    requires count >= 1
    ensures LadderSeconds(count).Some? && LadderSeconds(count + 1).Some?
    ensures count == 1 ==> DurationParts(LadderSeconds(count).value) == (5, Minutes)
    ensures count == 2 ==> DurationParts(LadderSeconds(count).value) == (12, Hours)
    ensures count == 3 || count == 4 ==> DurationParts(LadderSeconds(count).value) == (7, Days)
    ensures count >= 5 ==> DurationParts(LadderSeconds(count).value) == (28, Days)
  {
    MuteLadder.CalculateMuteDurationShape(count, count + 1);
  }

  // ---------------------------------------------------------------------------
  // Public notice

  /** `violation_display` of the public notice. */
  const ViolationDisplay: map<string, string> := map[
    "harassment" := "🚫 騷擾內容",
    "harassment_threatening" := "⚔️ 威脅性騷擾",
    "hate" := "💢 仇恨言論",
    "violence" := "👊 暴力內容",
    "sexual" := "🔞 性相關內容",
    "self-harm" := "💔 自我傷害",
    "self_harm" := "💔 自我傷害",
    "phishing" := "🎣 釣魚網站",
    "malware" := "🦠 惡意軟體",
    "scam" := "💰 詐騙內容"]

  function CategoryDisplay(c: string): string {
    if Lower(c) in ViolationDisplay then ViolationDisplay[Lower(c)]
    else "⚠️ " + ViolationMapping.ChineseCategory(c)
  }

  /** The lines of the notice's category field. */
  function NoticeLines(categories: seq<string>): (lines: seq<string>)
  {
    var shown := Take(categories, 2);
    seq(|shown|, i requires 0 <= i < |shown| => CategoryDisplay(shown[i]))
      + (if |categories| > 2 then ["等 " + IntToString(|categories|) + " 項違規"] else [])
  }

  /** At most two categories are shown, in order; more than two add a third line from which the
      total count reads back. */
  lemma NoticeLinesSpec(categories: seq<string>)
    ensures var lines := NoticeLines(categories);
      && |lines| == (if |categories| <= 2 then |categories| else 3)
      && (forall i :: 0 <= i < |lines| && i < 2 ==> lines[i] == CategoryDisplay(categories[i]))
      && (|categories| > 2 ==> |lines[2]| > 6 && ParseInt(lines[2][2..|lines[2]| - 4]) == Some(|categories|))
  {
    if |categories| > 2 {
      var line := NoticeLines(categories)[2];
      assert line == "等 " + IntToString(|categories|) + " 項違規";
      assert line[2..|line| - 4] == IntToString(|categories|);
      ParseIntToString(|categories|);
    }
  }
}
