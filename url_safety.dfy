/** Deciding whether the links in a message are unsafe: the local blacklist first, then the
    destination of a shortened link, then the VirusTotal URL and domain reports. The answers of
    the web services are parameters; the checker's own state is its window of recent API calls
    and the blacklist it feeds. */
module UrlSafety {
  import opened Common
  import opened UrlBlacklist
  import opened UrlUnshortener

  /** API calls are counted over the last 60 seconds. */
  const RateWindow: int := 60

  /** `URL_BLACKLIST_AUTO_DOMAIN`: the source recorded for automatically blacklisted URLs. */
  const AutoDomainSource := "auto-detected"

  const SafeMessage := "URL appears safe"

  // ---------------------------------------------------------------------------
  // Upper-casing of category names

  function UpperChar(c: char): (d: char)
    ensures 'a' <= c <= 'z' ==> d as int == c as int - 32
    ensures !('a' <= c <= 'z') ==> d == c
  {
    if 'a' <= c <= 'z' then (c as int - 32) as char else c
  }

  /** `str.upper()` on ASCII letters. */
  function Upper(s: string): (r: string)
    ensures |r| == |s| && forall i :: 0 <= i < |s| ==> r[i] == UpperChar(s[i])
  {
    seq(|s|, i requires 0 <= i < |s| => UpperChar(s[i]))
  }

  /** The non-empty categories, upper-cased, in order. */
  function UpperNames(categories: seq<string>): (r: seq<string>)
    ensures forall t :: t in r <==> exists i :: 0 <= i < |categories| && categories[i] != "" && Upper(categories[i]) == t
  {
    if categories == [] then []
    else
      var front := categories[..|categories| - 1];
      var c := categories[|categories| - 1];
      var r := UpperNames(front) + (if c != "" then [Upper(c)] else []);
      assert forall i :: 0 <= i < |front| ==> front[i] == categories[i];
      r
  }

  // ---------------------------------------------------------------------------
  // Scores, severities and messages

  /** `last_analysis_stats` (domains) or `stats` (URLs): how many engines said what. */
  datatype Stats = Stats(harmless: nat, malicious: nat, suspicious: nat, undetected: nat)

  function Engines(s: Stats): nat {
    s.harmless + s.malicious + s.suspicious + s.undetected
  }

  /** The threat score: malicious engines count fully and suspicious ones half, over all
      engines; 0 when no engine answered. */
  function ThreatScore(s: Stats): (score: real)
    ensures 0.0 <= score <= 1.0
    ensures score == 0.0 <==> s.malicious == 0 && s.suspicious == 0
    ensures Engines(s) > 0 && s.malicious == Engines(s) ==> score == 1.0
  {
    var total := Engines(s);
    if total > 0 then
      var weighted := s.malicious as real + s.suspicious as real * 0.5;
      assert weighted <= total as real;
      DivideAtMost(weighted, total as real);
      weighted / total as real
    else 0.0
  }

  /** `_calculate_severity`: 9, 8 or 7 for five, three or one malicious engines, 6, 5 or 4 for
      suspicious ones, 3 for a score at the threshold, 1 otherwise. */
  function Severity(score: real, malicious: int, suspicious: int, threshold: real): (level: int)
    ensures 1 <= level <= 9 && level != 2
    ensures level >= 7 <==> malicious >= 1
    ensures level == 1 <==> malicious < 1 && suspicious < 1 && score < threshold
    ensures malicious < 1 ==> (level >= 4 <==> suspicious >= 1)
  {
    if malicious >= 5 then 9
    else if malicious >= 3 then 8
    else if malicious >= 1 then 7
    else if suspicious >= 5 then 6
    else if suspicious >= 3 then 5
    else if suspicious >= 1 then 4
    else if score >= threshold then 3
    else 1
  }

  /** More malicious or suspicious engines never lower the severity. */
  lemma SeverityMonotone(score: real, m1: int, m2: int, s1: int, s2: int, threshold: real)
    requires m1 <= m2 && s1 <= s2
    ensures Severity(score, m1, s1, threshold) <= Severity(score, m2, s2, threshold)
  {
  }

  /** `_generate_threat_message`; `percent` is the score written as a percentage with two
      decimals. */
  function ThreatMessage(score: real, malicious: int, suspicious: int, threshold: real, percent: string): (m: string)
    ensures m == SafeMessage <==> Severity(score, malicious, suspicious, threshold) == 1
  {
    if malicious >= 5 then
      var m := "High-risk URL detected by " + IntToString(malicious) + " security engines";
      assert m[0] != SafeMessage[0];
      m
    else if malicious >= 1 then
      var m := "Malicious content detected by " + IntToString(malicious) + " security engine(s)"
        + (if suspicious > 0 then " and flagged as suspicious by " + IntToString(suspicious) + " additional engine(s)" else "");
      assert m[0] != SafeMessage[0];
      m
    else if suspicious >= 3 then
      var m := "Suspicious content flagged by " + IntToString(suspicious) + " security engines";
      assert m[0] != SafeMessage[0];
      m
    else if suspicious >= 1 then "Potentially suspicious content detected"
    else if score >= threshold then
      var m := "URL flagged with threat score: " + percent;
      assert m[4] != SafeMessage[4];
      m
    else SafeMessage
  }

  // ---------------------------------------------------------------------------
  // Reports

  /** What a successful check reports. Fields a source leaves out read as the defaults the
      checker uses: score 0, no engines, no threat types, severity 1. `via` is the `method` key. */
  datatype Report = Report(
    isUnsafe: bool, score: real, malicious: nat, suspicious: nat,
    threatTypes: seq<string>, severity: int, message: string, via: Option<string>)

  datatype Outcome = Success(report: Report) | Failure(error: string)

  /** The threat-type loop of `_parse_virustotal_response` as written: a category is skipped
      when it is empty or already listed, but the list holds upper-cased names. */
  function CollectAsWritten(categories: seq<string>): (r: seq<string>)
    ensures |r| <= |categories|
    ensures forall t :: t in r ==> t in UpperNames(categories)
  {
    if categories == [] then []
    else
      var types := CollectAsWritten(categories[..|categories| - 1]);
      var c := categories[|categories| - 1];
      if c != "" && c !in types then types + [Upper(c)] else types
  }

  /** Two engines reporting the same lower-case category list it twice. */
  lemma CollectAsWrittenRepeats()
    ensures CollectAsWritten(["spam", "spam"]) == ["SPAM", "SPAM"]
    ensures !NoDuplicates(CollectAsWritten(["spam", "spam"]))
    ensures Dedupe(UpperNames(["spam", "spam"])) == ["SPAM"]
  {
    assert Upper("spam") == "SPAM";
    assert ["spam", "spam"][..1] == ["spam"];
    assert ["spam"][..0] == [];
    assert "spam" != "SPAM";
    assert UpperNames(["spam", "spam"]) == ["SPAM", "SPAM"];
    assert ["SPAM", "SPAM"][1..] == ["SPAM"];
  }

  /** An upper-cased name is its own upper case. */
  lemma UpperFixed(s: string)
    ensures Upper(Upper(s)) == Upper(s)
  {
    forall k | 0 <= k < |s| ensures Upper(Upper(s))[k] == Upper(s)[k] {
      assert !('a' <= Upper(s)[k] <= 'z');
    }
  }

  /** As written the list still names every threat type that is meant: only repeats differ. */
  lemma {:induction false} CollectAsWrittenNamesAll(categories: seq<string>)
    ensures forall t :: t in CollectAsWritten(categories) <==> t in UpperNames(categories)
    decreases |categories|
  {
    if categories != [] {
      var front := categories[..|categories| - 1];
      var c := categories[|categories| - 1];
      assert forall i :: 0 <= i < |front| ==> front[i] == categories[i];
      CollectAsWrittenNamesAll(front);
      assert UpperNames(categories) == UpperNames(front) + (if c != "" then [Upper(c)] else []);
      if c != "" && c in CollectAsWritten(front) {
        var i :| 0 <= i < |front| && front[i] != "" && Upper(front[i]) == c;
        UpperFixed(front[i]);
      }
    }
  }

  /** The loop as written does what it evidently means exactly when the categories are
      already upper-case. */
  lemma {:induction false} CollectAsWrittenWhenUpper(categories: seq<string>)
    requires forall i :: 0 <= i < |categories| ==> Upper(categories[i]) == categories[i]
    ensures CollectAsWritten(categories) == Dedupe(UpperNames(categories))
    decreases |categories|
  {
    if categories != [] {
      var front := categories[..|categories| - 1];
      var c := categories[|categories| - 1];
      assert forall i :: 0 <= i < |front| ==> front[i] == categories[i];
      CollectAsWrittenWhenUpper(front);
      if c != "" {
        DedupeSnoc(UpperNames(front), Upper(c));
      } else {
        assert UpperNames(categories) == UpperNames(front);
      }
    }
  }

  /** The threat-type loop as evidently meant: each upper-cased category once, in the order
      first reported. */
  method CollectThreatTypes(categories: seq<string>) returns (types: seq<string>)
    ensures types == Dedupe(UpperNames(categories))
  {
    types := [];
    for i := 0 to |categories|
      invariant types == Dedupe(UpperNames(categories[..i]))
    {
      var c := categories[i];
      assert categories[..i + 1][..i] == categories[..i];
      if c != "" {
        DedupeSnoc(UpperNames(categories[..i]), Upper(c));
        if Upper(c) !in types {
          types := types + [Upper(c)];
        }
      } else {
        assert UpperNames(categories[..i + 1]) == UpperNames(categories[..i]);
      }
    }
    assert categories[..|categories|] == categories;
  }

  /** `_parse_virustotal_response`: unsafe when the score reaches the threshold; the threat
      types are the reported categories when some engine found the URL malicious, else
      "UNKNOWN" for an unsafe URL, else none. */
  function UrlReport(stats: Stats, categories: seq<string>, threshold: real, percent: real -> string): (r: Report)
    ensures r.isUnsafe <==> ThreatScore(stats) >= threshold
    ensures r.isUnsafe ==> r.threatTypes != []
    ensures NoDuplicates(r.threatTypes)
    ensures stats.malicious == 0 ==> r.threatTypes == (if r.isUnsafe then ["UNKNOWN"] else [])
    ensures stats.malicious > 0 ==> forall t :: t in UpperNames(categories) ==> t in r.threatTypes
    ensures r.severity >= 7 <==> stats.malicious > 0
    ensures r.score == ThreatScore(stats) && r.malicious == stats.malicious && r.suspicious == stats.suspicious
    ensures r.via.None?
  {
    var score := ThreatScore(stats);
    var found := if stats.malicious > 0 then Dedupe(UpperNames(categories)) else [];
    var unsafe := score >= threshold;
    Report(unsafe, score, stats.malicious, stats.suspicious,
      if found != [] then found else if unsafe then ["UNKNOWN"] else [],
      Severity(score, stats.malicious, stats.suspicious, threshold),
      ThreatMessage(score, stats.malicious, stats.suspicious, threshold, percent(score)), None)
  }

  method ParseUrlReport(stats: Stats, categories: seq<string>, threshold: real, percent: real -> string) returns (r: Report)
    ensures r == UrlReport(stats, categories, threshold, percent)
  {
    var found := [];
    if stats.malicious > 0 {
      found := CollectThreatTypes(categories);
    }
    var score := ThreatScore(stats);
    var unsafe := score >= threshold;
    r := Report(unsafe, score, stats.malicious, stats.suspicious,
      if found != [] then found else if unsafe then ["UNKNOWN"] else [],
      Severity(score, stats.malicious, stats.suspicious, threshold),
      ThreatMessage(score, stats.malicious, stats.suspicious, threshold, percent(score)), None);
  }

  /** `_parse_domain_response`: unsafe when the score reaches the threshold or any engine found
      the domain malicious; the threat types are all reported categories, upper-cased, once. */
  function DomainReport(stats: Stats, categories: seq<string>, threshold: real, percent: real -> string): (r: Report)
    ensures r.isUnsafe <==> ThreatScore(stats) >= threshold || stats.malicious > 0
    ensures NoDuplicates(r.threatTypes)
    ensures forall t :: t in r.threatTypes <==> t in UpperNames(categories)
    ensures r.severity >= 7 ==> r.isUnsafe
    ensures r.via == Some("domain_api")
  {
    var score := ThreatScore(stats);
    Report(score >= threshold || stats.malicious > 0, score, stats.malicious, stats.suspicious,
      Dedupe(UpperNames(categories)),
      Severity(score, stats.malicious, stats.suspicious, threshold),
      ThreatMessage(score, stats.malicious, stats.suspicious, threshold, percent(score)), Some("domain_api"))
  }

  /** A domain the service has never seen: reported safe. */
  const UnknownDomainReport := Report(false, 0.0, 0, 0, [], 1, "Domain not found in threat database", Some("domain_api"))

  /** What `_check_multiple_apis` reports when no source answered: not blocked. */
  const NoApiReport := Report(false, 0.0, 0, 0, [], 1, "No API available for checking, URL not blocked", Some("no_api"))

  // ---------------------------------------------------------------------------
  // Combining reports

  function SumScores(rs: seq<Report>): real {
    if rs == [] then 0.0 else SumScores(rs[..|rs| - 1]) + rs[|rs| - 1].score
  }

  function SumMalicious(rs: seq<Report>): nat {
    if rs == [] then 0 else SumMalicious(rs[..|rs| - 1]) + rs[|rs| - 1].malicious
  }

  function SumSuspicious(rs: seq<Report>): nat {
    if rs == [] then 0 else SumSuspicious(rs[..|rs| - 1]) + rs[|rs| - 1].suspicious
  }

  function AllThreatTypes(rs: seq<Report>): seq<string> {
    if rs == [] then [] else AllThreatTypes(rs[..|rs| - 1]) + rs[|rs| - 1].threatTypes
  }

  /** The total of malicious counts is positive exactly when one report's count is. */
  lemma {:induction false} SumMaliciousPositive(rs: seq<Report>)
    ensures SumMalicious(rs) > 0 <==> exists i :: 0 <= i < |rs| && rs[i].malicious > 0
    decreases |rs|
  {
    if rs != [] {
      var front := rs[..|rs| - 1];
      SumMaliciousPositive(front);
      assert forall i :: 0 <= i < |front| ==> front[i] == rs[i];
    }
  }

  /** The combined threat types are exactly those some report gives. */
  lemma {:induction false} AllThreatTypesMembers(rs: seq<Report>)
    ensures forall t :: t in AllThreatTypes(rs) <==> exists i :: 0 <= i < |rs| && t in rs[i].threatTypes
    decreases |rs|
  {
    if rs != [] {
      var front := rs[..|rs| - 1];
      AllThreatTypesMembers(front);
      assert forall i :: 0 <= i < |front| ==> front[i] == rs[i];
    }
  }

  /** `_combine_api_results`: nothing without reports, a single report as it is, otherwise the
      average score, summed engine counts and every threat type once; several reports are
      unsafe when the average reaches the threshold or any engine found the URL malicious. */
  function CombineReports(rs: seq<Report>, threshold: real, percent: real -> string): (r: Option<Report>)
    ensures r.None? <==> rs == []
    ensures |rs| == 1 ==> r == Some(rs[0])
  {
    if rs == [] then None
    else if |rs| == 1 then Some(rs[0])
    else
      var avg := SumScores(rs) / |rs| as real;
      var malicious := SumMalicious(rs);
      var suspicious := SumSuspicious(rs);
      var types := Dedupe(AllThreatTypes(rs));
      Some(Report(avg >= threshold || malicious > 0, avg, malicious, suspicious, types,
        Severity(avg, malicious, suspicious, threshold),
        ThreatMessage(avg, malicious, suspicious, threshold, percent(avg)), None))
  }

  /** With several reports, one engine finding the URL malicious is enough to make it unsafe
      with severity at least 7. */
  lemma CombineSeveralUnsafe(rs: seq<Report>, threshold: real, percent: real -> string)
    requires |rs| >= 2
    ensures var r := CombineReports(rs, threshold, percent).value;
      && (r.isUnsafe <==> SumScores(rs) / |rs| as real >= threshold || exists i :: 0 <= i < |rs| && rs[i].malicious > 0)
      && (r.severity >= 7 <==> exists i :: 0 <= i < |rs| && rs[i].malicious > 0)
  {
    SumMaliciousPositive(rs);
  }

  /** With several reports, the combined threat types are the union of theirs, each once. */
  lemma CombineSeveralTypes(rs: seq<Report>, threshold: real, percent: real -> string)
    requires |rs| >= 2
    ensures var r := CombineReports(rs, threshold, percent).value;
      && NoDuplicates(r.threatTypes)
      && (forall t :: t in r.threatTypes <==> exists i :: 0 <= i < |rs| && t in rs[i].threatTypes)
  {
    var all := AllThreatTypes(rs);
    var types := CombineReports(rs, threshold, percent).value.threatTypes;
    assert types == Dedupe(all);
    AllThreatTypesMembers(rs);
    forall t
      ensures t in types <==> t in all
    {
      DedupeMember(all, t);
    }
  }

  lemma DedupeMember<T(!new)>(s: seq<T>, x: T)
    ensures x in Dedupe(s) <==> x in s
  {
    if x in s {
      var i :| 0 <= i < |s| && s[i] == x;
    }
  }

  // ---------------------------------------------------------------------------
  // The services' answers

  /** The answer to a report lookup: the report, 404, another status, a timeout, or an
      exception with its text. */
  datatype Fetch =
    | Found(stats: Stats, categories: seq<string>)
    | NotFound
    | Status(code: int)
    | TimedOut
    | Threw(error: string)

  /** The answer to submitting a URL for analysis: the analysis id ("" when missing), another
      status, or an exception. */
  datatype Post = Posted(analysisId: string) | PostStatus(code: int) | PostThrew(error: string)

  /** One poll of an analysis: its status and, once completed, its report. */
  datatype Poll = Polled(status: string, stats: Stats, categories: seq<string>) | PollStatus(code: int) | PollThrew(error: string)

  /** Everything the outside world answers during one check: the unshortening settings and
      web servers, the browser expansion, the scanning service's answers, and the rendering of
      a score as a percentage. */
  datatype Services = Services(
    unshortenEnabled: bool, maxRedirects: int, head: Response, get: (nat, string) -> Response,
    useBrowser: bool, browser: Expansion,
    urlLookup: Fetch, submission: Post, poll: nat -> Poll, domainLookup: Fetch,
    percent: real -> string)

  predicate Completed(p: Poll) {
    p.Polled? && p.status == "completed"
  }

  /** A poll after which another attempt is made: the analysis is still queued or running, or
      the poll raised before the last attempt. */
  predicate Retried(p: Poll, attempt: nat) {
    (p.Polled? && (p.status == "queued" || p.status == "running")) || (p.PollThrew? && attempt < 2)
  }

  /** The i-th poll is the one whose completed analysis is used: every earlier poll led to
      another attempt. */
  ghost predicate SucceedsAt(poll: nat -> Poll, i: nat) {
    Completed(poll(i)) && forall j :: 0 <= j < i ==> Retried(poll(j), j)
  }

  /** A poll that neither completes nor leads to another attempt ends the wait unsuccessfully. */
  lemma StopsAt(poll: nat -> Poll, a: nat)
    requires a < 3 && !Completed(poll(a)) && !Retried(poll(a), a)
    requires forall j :: 0 <= j < a ==> Retried(poll(j), j)
    ensures forall i :: 0 <= i < 3 ==> !SucceedsAt(poll, i)
  {
    forall i | 0 <= i < 3 && i != a && Completed(poll(i))
      ensures !SucceedsAt(poll, i)
    {
      if i > a {
        assert !Retried(poll(a), a);
      }
    }
  }

  /** `_get_virustotal_analysis`: up to three polls; the first completed analysis is parsed,
      a queued or running one is polled again, any other answer ends the wait. */
  method AwaitAnalysis(poll: nat -> Poll, threshold: real, percent: real -> string) returns (o: Outcome)
    ensures o.Success? <==> exists i :: 0 <= i < 3 && SucceedsAt(poll, i)
    ensures o.Success? ==> exists i :: (0 <= i < 3 && SucceedsAt(poll, i) &&
      o.report == UrlReport(poll(i).stats, poll(i).categories, threshold, percent))
    ensures (forall i :: 0 <= i < 3 ==> Retried(poll(i), i)) ==> o == Failure("Analysis timeout")
  {
    for attempt := 0 to 3
      invariant forall j :: 0 <= j < attempt ==> Retried(poll(j), j)
    {
      match poll(attempt) {
        case Polled(status, stats, categories) =>
          if status == "completed" {
            var r := ParseUrlReport(stats, categories, threshold, percent);
            assert SucceedsAt(poll, attempt);
            return Success(r);
          } else if status == "queued" || status == "running" {
          } else {
            StopsAt(poll, attempt);
            return Failure("Analysis failed with status: " + status);
          }
        case PollStatus(code) =>
          StopsAt(poll, attempt);
          return Failure("Analysis retrieval failed: " + IntToString(code));
        case PollThrew(error) =>
          if attempt == 2 {
            StopsAt(poll, attempt);
            return Failure(error);
          }
      }
    }
    forall i | 0 <= i < 3
      ensures !SucceedsAt(poll, i)
    {
      assert Retried(poll(i), i);
    }
    return Failure("Analysis timeout");
  }

  /** `_submit_url_to_virustotal`: a submission that returned an analysis id waits for the
      analysis; any other answer is a failure. */
  method Submit(post: Post, poll: nat -> Poll, threshold: real, percent: real -> string) returns (o: Outcome)
    ensures o.Success? ==> post.Posted? && post.analysisId != ""
    ensures post == Posted("") ==> o == Failure("Failed to get analysis ID from VirusTotal")
    ensures post.PostStatus? ==> o == Failure("VirusTotal submission failed: " + IntToString(post.code))
    ensures post.PostThrew? ==> o == Failure(post.error)
  {
    match post {
      case Posted(id) =>
        if id == "" {
          return Failure("Failed to get analysis ID from VirusTotal");
        }
        o := AwaitAnalysis(poll, threshold, percent);
      case PostStatus(code) =>
        return Failure("VirusTotal submission failed: " + IntToString(code));
      case PostThrew(error) =>
        return Failure(error);
    }
  }

  /** `_get_domain_from_url` of the checker: the lower-cased host without "www.", "" where the
      URL cannot be parsed. */
  function CheckedDomain(url: string): (d: string)
    ensures ParseUrl(url).None? ==> d == ""
  {
    match ParseUrl(url)
    case None => ""
    case Some(p) => DropWww(Lower(p.netloc))
  }

  /** Calls made less than a minute before `now`, in their order. */
  function Recent(calls: seq<int>, now: int): (r: seq<int>)
    ensures |r| <= |calls|
    ensures forall t :: t in r <==> t in calls && now - t < RateWindow
  {
    if calls == [] then [] else (if now - calls[0] < RateWindow then [calls[0]] else []) + Recent(calls[1..], now)
  }

  /** Whether a call at `now` is admitted, given the earlier calls. */
  predicate Admits(calls: seq<int>, now: int, limit: int) {
    |Recent(calls, now)| < limit
  }

  /** The call window after a call was attempted at `now`. */
  function AfterAttempt(calls: seq<int>, now: int, limit: int): seq<int> {
    Recent(calls, now) + (if Admits(calls, now, limit) then [now] else [])
  }

  /** The outcome of one `check_url`. `via` is the `method` key. */
  datatype UrlCheck = UrlCheck(
    url: string, isUnsafe: bool, message: string, threatTypes: seq<string>, severity: int,
    via: string, score: Option<real>, unshortened: Option<string>, error: Option<string>)

  /** The outcome recorded for a URL whose check raised. */
  datatype Checked = Done(unsafe: bool, check: UrlCheck) | Crashed(error: string)

  /** `extract_urls` of the checker with the pattern's matches given: the matches without
      repeats, in first-occurrence order, cut to `maxUrls` (a negative limit drops that many
      from the end, as Python slicing does). */
  function ExtractUrls(text: string, matches: seq<string>, maxUrls: int): (r: seq<string>)
    ensures NoDuplicates(r)
    ensures forall u :: u in r ==> text != "" && u in matches
    ensures maxUrls >= 0 ==> |r| <= maxUrls
    ensures text != "" && |Dedupe(matches)| <= maxUrls ==> forall u :: u in matches ==> u in r
  {
    if text == "" then []
    else
      var unique := Dedupe(matches);
      if |unique| > maxUrls then
        var keep := if maxUrls >= 0 then maxUrls else Max(|unique| + maxUrls, 0);
        NoDuplicatesPrefix(unique, keep);
        unique[..keep]
      else unique
  }

  lemma NoDuplicatesPrefix<T>(s: seq<T>, n: nat)
    requires NoDuplicates(s) && n <= |s|
    ensures NoDuplicates(s[..n]) && forall i :: 0 <= i < n ==> s[..n][i] in s
  {
  }

  class UrlSafetyChecker {
    const threshold: real
    const provider: string
    const apiKey: string
    const maxUrls: int
    const rateLimit: int
    const blacklist: Blacklist?
    var apiCalls: seq<int>

    /** Never more calls remembered than the limit allows in a minute. */
    predicate Valid()
      reads this
    {
      |apiCalls| <= Max(rateLimit, 0)
    }

    /** The blacklist, loaded when enabled, is given; no API call has been made. */
    constructor (threshold: real, provider: string, apiKey: string, maxUrls: int, rateLimit: int, blacklist: Blacklist?)
      ensures Valid() && apiCalls == []
      ensures this.threshold == threshold && this.provider == provider && this.apiKey == apiKey
      ensures this.maxUrls == maxUrls && this.rateLimit == rateLimit && this.blacklist == blacklist
    {
      this.threshold := threshold;
      this.provider := provider;
      this.apiKey := apiKey;
      this.maxUrls := maxUrls;
      this.rateLimit := rateLimit;
      this.blacklist := blacklist;
      apiCalls := [];
    }

    /** `_rate_limit_check`: calls older than a minute are forgotten; a new call is admitted,
        and remembered, only while fewer than the limit remain. */
    method RateLimitCheck(now: int) returns (ok: bool)
      modifies this
      requires Valid()
      ensures Valid()
      ensures ok <==> Admits(old(apiCalls), now, rateLimit)
      ensures apiCalls == AfterAttempt(old(apiCalls), now, rateLimit)
      ensures forall t :: t in old(apiCalls) && now - t < RateWindow ==> t in apiCalls
    {
      apiCalls := Recent(apiCalls, now);
      if |apiCalls| >= rateLimit {
        return false;
      }
      apiCalls := apiCalls + [now];
      return true;
    }

    /** `_check_virustotal`: needs a key and a free slot; a known URL's report is parsed, an
        unknown URL is submitted for analysis, anything else is a failure. */
    method CheckVirusTotal(now: int, s: Services) returns (o: Outcome)
      modifies this
      requires Valid()
      ensures Valid()
      ensures apiKey == "" ==> o == Failure("VirusTotal API key not configured") && apiCalls == old(apiCalls)
      ensures apiKey != "" ==> apiCalls == AfterAttempt(old(apiCalls), now, rateLimit)
      ensures apiKey != "" && !Admits(old(apiCalls), now, rateLimit) ==> o == Failure("Rate limit exceeded")
      ensures o.Success? ==> apiKey != "" && Admits(old(apiCalls), now, rateLimit)
      ensures o.Success? && s.urlLookup.Found? ==> o.report == UrlReport(s.urlLookup.stats, s.urlLookup.categories, threshold, s.percent)
      ensures o.Success? ==> s.urlLookup.Found? || (s.urlLookup.NotFound? && s.submission.Posted? && s.submission.analysisId != "")
      ensures apiKey != "" && Admits(old(apiCalls), now, rateLimit) && s.urlLookup.TimedOut? ==> o == Failure("Request timeout")
    {
      if apiKey == "" {
        return Failure("VirusTotal API key not configured");
      }
      var ok := RateLimitCheck(now);
      if !ok {
        return Failure("Rate limit exceeded");
      }
      match s.urlLookup {
        case Found(stats, categories) =>
          var r := ParseUrlReport(stats, categories, threshold, s.percent);
          o := Success(r);
        case NotFound =>
          o := Submit(s.submission, s.poll, threshold, s.percent);
        case Status(code) =>
          o := Failure("VirusTotal API error: " + IntToString(code));
        case TimedOut =>
          o := Failure("Request timeout");
        case Threw(error) =>
          o := Failure(error);
      }
    }

    /** `_check_domain_reputation`: needs a domain, a key and a free slot; a known domain's
        report is parsed, an unknown domain is safe, anything else is a failure. */
    method CheckDomainReputation(domain: string, now: int, s: Services) returns (o: Outcome)
      modifies this
      requires Valid()
      ensures Valid()
      ensures domain == "" ==> o == Failure("Empty domain provided") && apiCalls == old(apiCalls)
      ensures domain != "" && apiKey == "" ==> o == Failure("API key not configured for domain check") && apiCalls == old(apiCalls)
      ensures domain != "" && apiKey != "" ==> apiCalls == AfterAttempt(old(apiCalls), now, rateLimit)
      ensures domain != "" && apiKey != "" && !Admits(old(apiCalls), now, rateLimit) ==> o == Failure("Rate limit exceeded for domain check")
      ensures o.Success? ==> domain != "" && apiKey != "" && Admits(old(apiCalls), now, rateLimit)
      ensures o.Success? ==>
        || (s.domainLookup.Found? && o.report == DomainReport(s.domainLookup.stats, s.domainLookup.categories, threshold, s.percent))
        || (s.domainLookup.NotFound? && o.report == UnknownDomainReport)
    {
      if domain == "" {
        return Failure("Empty domain provided");
      }
      if apiKey == "" {
        return Failure("API key not configured for domain check");
      }
      var ok := RateLimitCheck(now);
      if !ok {
        return Failure("Rate limit exceeded for domain check");
      }
      match s.domainLookup {
        case Found(stats, categories) =>
          o := Success(DomainReport(stats, categories, threshold, s.percent));
        case NotFound =>
          o := Success(UnknownDomainReport);
        case Status(code) =>
          o := Failure("Domain API error: " + IntToString(code));
        case TimedOut =>
          o := Failure("");
        case Threw(error) =>
          o := Failure(error);
      }
    }

    /** `_check_multiple_apis`: the URL report (for the "virustotal" and "all" providers) and
        the domain report are combined when they succeed; with neither, the URL is not
        blocked. It never fails. */
    method CheckMultipleApis(url: string, now: int, s: Services) returns (r: Report, results: seq<Report>)
      modifies this
      requires Valid()
      ensures Valid()
      ensures |results| <= 2
      ensures results == [] ==> r == NoApiReport
      ensures results != [] ==> CombineReports(results, threshold, s.percent) == Some(r)
      ensures apiKey == "" ==> results == [] && apiCalls == old(apiCalls)
      ensures r.isUnsafe ==> results != []
    {
      results := [];
      if (provider == "virustotal" || provider == "all") && apiKey != "" {
        var vt := CheckVirusTotal(now, s);
        if vt.Success? {
          results := results + [vt.report];
        }
      }
      if apiKey != "" {
        var domain := CheckedDomain(url);
        if domain != "" {
          var dr := CheckDomainReputation(domain, now, s);
          if dr.Success? {
            results := results + [dr.report];
          }
        }
      }
      var combined := CombineReports(results, threshold, s.percent);
      if combined.Some? {
        r := combined.value;
      } else {
        r := NoApiReport;
      }
    }

    /** Step 2 of `check_url`: the URL to scan. A shortened URL that expands somewhere else is
        replaced by its destination, which is returned with the expansion. None where the URL
        cannot be parsed, which the check reports as an error. */
    method Destination(u: string, s: Services) returns (d: Option<(string, Option<Expansion>)>)
      requires u != ""
      ensures IsShortened(u).None? ==> d.None?
      ensures d.Some? && d.value.1.None? ==> d.value.0 == u
      ensures d.Some? && d.value.1.Some? ==>
        IsShortened(u) == Some(true) && d.value.1.value.success && d.value.0 == d.value.1.value.final != u
    {
      var shortened := IsShortened(u);
      if shortened.None? {
        return None;
      }
      if !shortened.value {
        return Some((u, None));
      }
      var viaRequests := UnshortenWithRequests(u, s.maxRedirects, s.head, s.get);
      var expansion := ChooseExpansion(s.unshortenEnabled, u, viaRequests, s.useBrowser, s.browser);
      if expansion.None? {
        return None;
      }
      if expansion.value.success && expansion.value.final != u {
        return Some((expansion.value.final, expansion));
      }
      return Some((u, None));
    }

    /** `check_url`: the empty URL is refused; a blacklisted URL (or blacklisted destination of
        a shortened one) is unsafe without asking any service; otherwise the services decide,
        and a URL they find unsafe is added to the blacklist. Errors never block a URL. */
    method CheckUrl(url: string, now: int, s: Services) returns (unsafe: bool, c: UrlCheck)
      modifies this, blacklist
      requires Valid()
      ensures Valid()
      ensures unsafe == c.isUnsafe
      ensures url == "" ==> !unsafe && c.error == Some("Empty URL") && apiCalls == old(apiCalls)
      ensures url != "" ==> c.url == WithScheme(url)
      ensures blacklist != null && url != "" && old(blacklist.Lookup(WithScheme(url))).Some? ==>
        && unsafe && c.via == "blacklist" && apiCalls == old(apiCalls)
        && c.severity == old(blacklist.Lookup(WithScheme(url))).value.severity
        && c.threatTypes == old(blacklist.Lookup(WithScheme(url))).value.threatTypes
      ensures c.error.Some? ==> !unsafe
      ensures unsafe && c.via != "blacklist" && blacklist != null && Target(c) != "" ==>
        blacklist.Lookup(Target(c)).Some?
      ensures !unsafe && blacklist != null ==>
        blacklist.urls == old(blacklist.urls) && blacklist.shortened == old(blacklist.shortened)
      ensures blacklist != null ==> blacklist.domains == old(blacklist.domains)
    {
      if url == "" {
        return false, UrlCheck(url, false, "Empty URL provided", [], 1, "combined", None, None, Some("Empty URL"));
      }
      var u := WithScheme(url);
      if blacklist != null {
        var hit := blacklist.Lookup(u);
        if hit.Some? {
          return true, UrlCheck(u, true, "URL in blacklist: " + hit.value.reason, hit.value.threatTypes,
            hit.value.severity, "blacklist", None, None, None);
        }
      }
      unsafe, c := CheckTarget(u, now, s);
    }

    /** Steps 2 and 3 of `check_url`, for a URL not itself blacklisted. */
    method CheckTarget(u: string, now: int, s: Services) returns (unsafe: bool, c: UrlCheck)
      modifies this, blacklist
      requires Valid() && u != ""
      ensures Valid()
      ensures unsafe == c.isUnsafe && c.url == u
      ensures c.error.Some? ==> !unsafe
      ensures unsafe && c.via != "blacklist" && blacklist != null && Target(c) != "" ==>
        blacklist.Lookup(Target(c)).Some?
      ensures !unsafe && blacklist != null ==>
        blacklist.urls == old(blacklist.urls) && blacklist.shortened == old(blacklist.shortened)
      ensures blacklist != null ==> blacklist.domains == old(blacklist.domains)
    {
      var d := Destination(u, s);
      if d.None? {
        return false, UrlCheck(u, false, "Error checking URL: " + InvalidHost, [], 1, "error", None, None, Some(InvalidHost));
      }
      var target := d.value.0;
      var unshortened := if d.value.1.Some? then Some(target) else None;
      if d.value.1.Some? && blacklist != null {
        var hit := blacklist.Lookup(target);
        if hit.Some? {
          return true, UrlCheck(u, true, "Final URL in blacklist: " + hit.value.reason, hit.value.threatTypes,
            hit.value.severity, "blacklist", None, unshortened, None);
        }
      }
      unsafe, c := CheckByApis(u, target, unshortened, now, s);
    }

    /** Step 3 of `check_url`: the APIs judge the target, and an unsafe verdict is filed in the
        blacklist. */
    method CheckByApis(u: string, target: string, unshortened: Option<string>, now: int, s: Services)
      returns (unsafe: bool, c: UrlCheck)
      modifies this, blacklist
      requires Valid() && (if unshortened.Some? then unshortened.value == target else target == u)
      ensures Valid()
      ensures unsafe == c.isUnsafe && c.url == u && c.error.None? && Target(c) == target
      ensures unsafe && blacklist != null && target != "" ==> blacklist.Lookup(target).Some?
      ensures !unsafe && blacklist != null ==>
        blacklist.urls == old(blacklist.urls) && blacklist.shortened == old(blacklist.shortened)
      ensures blacklist != null ==> blacklist.domains == old(blacklist.domains)
    {
      var r, results := CheckMultipleApis(target, now, s);
      unsafe := r.isUnsafe;
      c := UrlCheck(u, unsafe, r.message, r.threatTypes, r.severity,
        if r.via.Some? then r.via.value else "api", Some(r.score), unshortened, None);
      if unsafe && blacklist != null {
        Record(blacklist, target, u, r, now);
      }
    }
  }

  /** The URL a check is about: the destination of a shortened URL, else the URL itself. */
  function Target(c: UrlCheck): string {
    if c.unshortened.Some? then c.unshortened.value else c.url
  }

  /** Files an unsafe result in the blacklist, with the shortened URL when it differs. */
  method Record(b: Blacklist, target: string, u: string, r: Report, now: int)
    modifies b
    requires r.isUnsafe
    ensures target != "" ==> b.Lookup(target).Some?
    ensures b.domains == old(b.domains)
  {
    b.AddUnsafeResult(target, SafetyReport(true, Some(r.threatTypes), Some(r.severity), Some(r.message)),
      if u != target then Some(u) else None, AutoDomainSource, now);
  }

  /** The result-gathering loop of `check_urls`, once every check has finished: the batch is
      unsafe exactly when some check that did not raise found its URL unsafe, and each URL maps
      to the last check made of it. */
  method GatherChecks(urls: seq<string>, outcomes: seq<Checked>) returns (hasUnsafe: bool, results: map<string, UrlCheck>)
    requires |outcomes| == |urls|
    ensures hasUnsafe <==> exists i :: 0 <= i < |urls| && Flags(outcomes[i])
    ensures forall u :: u in results <==> u in urls
    ensures forall i :: 0 <= i < |urls| && urls[i] !in urls[i + 1..] ==> results[urls[i]] == CheckOf(urls[i], outcomes[i])
  {
    hasUnsafe := false;
    results := map[];
    for i := 0 to |urls|
      invariant Gathered(urls, outcomes, hasUnsafe, results, i)
    {
      GatheredStep(urls, outcomes, hasUnsafe, results, i);
      results := results[urls[i] := CheckOf(urls[i], outcomes[i])];
      if Flags(outcomes[i]) {
        hasUnsafe := true;
      }
    }
    GatheredAll(urls, outcomes, hasUnsafe, results);
  }

  /** The state of `GatherChecks` after the first i outcomes. */
  ghost predicate Gathered(urls: seq<string>, outcomes: seq<Checked>, hasUnsafe: bool, results: map<string, UrlCheck>, i: nat)
    requires i <= |urls| == |outcomes|
  {
    && (hasUnsafe <==> FlaggedBefore(outcomes, i))
    && KeysUpTo(results, urls, i)
    && LastWins(results, urls, seq(|urls|, k requires 0 <= k < |urls| => CheckOf(urls[k], outcomes[k])), i)
  }

  lemma GatheredStep(urls: seq<string>, outcomes: seq<Checked>, hasUnsafe: bool, results: map<string, UrlCheck>, i: nat)
    requires i < |urls| == |outcomes|
    requires Gathered(urls, outcomes, hasUnsafe, results, i)
    ensures Gathered(urls, outcomes, hasUnsafe || Flags(outcomes[i]), results[urls[i] := CheckOf(urls[i], outcomes[i])], i + 1)
  {
    var checks := seq(|urls|, k requires 0 <= k < |urls| => CheckOf(urls[k], outcomes[k]));
    GatherStep(results, urls, checks, i);
    FlaggedStep(outcomes, i);
  }

  lemma GatheredAll(urls: seq<string>, outcomes: seq<Checked>, hasUnsafe: bool, results: map<string, UrlCheck>)
    requires |urls| == |outcomes|
    requires Gathered(urls, outcomes, hasUnsafe, results, |urls|)
    ensures hasUnsafe <==> exists i :: 0 <= i < |urls| && Flags(outcomes[i])
    ensures forall u :: u in results <==> u in urls
    ensures forall i :: 0 <= i < |urls| && urls[i] !in urls[i + 1..] ==> results[urls[i]] == CheckOf(urls[i], outcomes[i])
  {
    var checks := seq(|urls|, k requires 0 <= k < |urls| => CheckOf(urls[k], outcomes[k]));
    GatherDone(results, urls, checks);
  }

  /** The keys of m are the first i keys. */
  ghost predicate KeysUpTo<K(!new), V>(m: map<K, V>, keys: seq<K>, i: nat)
    requires i <= |keys|
  {
    forall u :: u in m <==> u in keys[..i]
  }

  /** Among the first i keys, each one's last occurrence holds its value in m. */
  ghost predicate LastWins<K, V>(m: map<K, V>, keys: seq<K>, vals: seq<V>, i: nat)
    requires i <= |keys| == |vals|
  {
    forall k :: 0 <= k < i && keys[k] !in keys[k + 1..i] ==> keys[k] in m && m[keys[k]] == vals[k]
  }

  lemma GatherStep<K(!new), V>(m: map<K, V>, keys: seq<K>, vals: seq<V>, i: nat)
    requires i < |keys| == |vals|
    requires KeysUpTo(m, keys, i) && LastWins(m, keys, vals, i)
    ensures KeysUpTo(m[keys[i] := vals[i]], keys, i + 1) && LastWins(m[keys[i] := vals[i]], keys, vals, i + 1)
  {
    KeysStep(m, keys, vals[i], i);
    LastWinsStep(m, keys, vals, i);
  }

  lemma KeysStep<K(!new), V>(m: map<K, V>, keys: seq<K>, v: V, i: nat)
    requires i < |keys|
    requires KeysUpTo(m, keys, i)
    ensures KeysUpTo(m[keys[i] := v], keys, i + 1)
  {
    assert keys[..i + 1] == keys[..i] + [keys[i]];
  }

  lemma LastWinsStep<K, V>(m: map<K, V>, keys: seq<K>, vals: seq<V>, i: nat)
    requires i < |keys| == |vals|
    requires LastWins(m, keys, vals, i)
    ensures LastWins(m[keys[i] := vals[i]], keys, vals, i + 1)
  {
    var m' := m[keys[i] := vals[i]];
    forall k | 0 <= k < i + 1 && keys[k] !in keys[k + 1..i + 1]
      ensures keys[k] in m' && m'[keys[k]] == vals[k]
    {
      if k < i {
        assert keys[k + 1..i + 1] == keys[k + 1..i] + [keys[i]];
        assert keys[k] != keys[i] && keys[k] !in keys[k + 1..i];
      }
    }
  }

  lemma GatherDone<K(!new), V>(m: map<K, V>, keys: seq<K>, vals: seq<V>)
    requires |keys| == |vals|
    requires KeysUpTo(m, keys, |keys|) && LastWins(m, keys, vals, |keys|)
    ensures forall u :: u in m <==> u in keys
    ensures forall k :: 0 <= k < |keys| && keys[k] !in keys[k + 1..] ==> m[keys[k]] == vals[k]
  {
    assert keys[..|keys|] == keys;
    forall k | 0 <= k < |keys| && keys[k] !in keys[k + 1..]
      ensures m[keys[k]] == vals[k]
    {
      assert keys[k + 1..|keys|] == keys[k + 1..];
    }
  }

  /** Some of the first i checks found its URL unsafe. */
  ghost predicate FlaggedBefore(os: seq<Checked>, i: nat)
    requires i <= |os|
  {
    exists k :: 0 <= k < i && Flags(os[k])
  }

  lemma FlaggedStep(os: seq<Checked>, i: nat)
    requires i < |os|
    ensures FlaggedBefore(os, i + 1) <==> FlaggedBefore(os, i) || Flags(os[i])
  {
  }

  /** A finished check that found its URL unsafe. */
  predicate Flags(o: Checked) {
    o.Done? && o.unsafe
  }

  /** What `check_urls` records for one URL: the check itself, or a safe entry carrying the
      exception's text. */
  function CheckOf(url: string, o: Checked): (c: UrlCheck)
    ensures o.Crashed? ==> !c.isUnsafe && c.error == Some(o.error)
    ensures o.Done? ==> c == o.check
  {
    match o
    case Done(_, check) => check
    case Crashed(error) => UrlCheck(url, false, "", [], 1, "", None, None, Some(error))
  }
}
