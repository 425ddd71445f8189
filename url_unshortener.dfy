/** Expanding shortened URLs: deciding whether a URL looks shortened, choosing request headers,
    following redirects (the web server is a parameter) and choosing between the plain-request and
    the headless-browser expansion. */
module UrlUnshortener {
  import opened Common
  import opened UrlBlacklist

  /** `SHORT_URL_DOMAINS`. */
  const ShortUrlDomains: seq<string> := [
    "bit.ly", "tinyurl.com", "goo.gl", "t.co", "ow.ly", "is.gd",
    "buff.ly", "adf.ly", "tiny.cc", "lnkd.in", "db.tt", "qr.ae",
    "j.mp", "soo.gd", "s2r.co", "clicky.me", "budurl.com",
    "bc.vc", "u.to", "v.gd", "shorturl.at", "cutt.ly", "shorturl.com",
    "tiny.one", "tinyurl.one", "rb.gy", "rebrand.ly", "plu.sh", "tny.im",
    "snip.ly", "short.io", "shorturl.com", "x.co", "yourls.org",
    "fw.io", "vurl.com", "tiny.pl", "n9.cl", "short.gy", "tr.im",
    "ur1.ca", "hoo.gl", "me2.do", "upto.site", "adpop.me", "liip.to",
    "urlzs.com", "frama.link", "url.ie", "t.me", "cli.re", "wp.me",
    "dlvr.it", "urlz.fr", "urlb.at", "turl.ca", "urls.im", "go2l.ink",
    "get.to", "sui.li", "zpr.io", "v.ht", "1w.tf", "rlu.ru", "mcaf.ee",
    "shorturl.at", "ln.is", "shr.lc", "dai.ly", "cort.as", "shrtco.de",
    "surl.li", "trib.al", "urlr.me", "lc.chat", "ift.tt", "crm.is",
    "gl.am", "bom.to", "smarturl.it", "drop.lk", "yep.it", "mfun.us",
    "post.ly", "huff.to", "perma.cc", "ouo.io", "lix.in"]

  // ---------------------------------------------------------------------------
  // Headers

  /** Request headers, in insertion order. */
  type Headers = seq<(string, string)>

  /** The value stored under `name`, if any. */
  function HeaderValue(h: Headers, name: string): Option<string> {
    if h == [] then None
    else if h[0].0 == name then Some(h[0].1)
    else HeaderValue(h[1..], name)
  }

  /** `headers[name] = value` on a dict: an existing key keeps its place, a new one goes last. */
  function SetHeader(h: Headers, name: string, value: string): (r: Headers)
    ensures HeaderValue(r, name) == Some(value)
    ensures forall k :: k != name ==> HeaderValue(r, k) == HeaderValue(h, k)
    ensures |r| == |h| || |r| == |h| + 1
  {
    if h == [] then [(name, value)]
    else if h[0].0 == name then [(name, value)] + h[1..]
    else [h[0]] + SetHeader(h[1..], name, value)
  }

  const ChromeAgent := "Mozilla/5.0 (Windows NT 10.0; Win64; x64) AppleWebKit/537.36 (KHTML, like Gecko) Chrome/91.0.4472.124 Safari/537.36"

  /** `default_headers`. */
  const DefaultHeaders: Headers := [
    ("User-Agent", ChromeAgent),
    ("Accept", "text/html,application/xhtml+xml,application/xml;q=0.9,image/webp,*/*;q=0.8"),
    ("Accept-Language", "en-US,en;q=0.5"),
    ("Connection", "keep-alive"),
    ("Upgrade-Insecure-Requests", "1"),
    ("Cache-Control", "no-cache"),
    ("Pragma", "no-cache")]

  /** One entry of `SPECIAL_HANDLERS`. */
  datatype Handler = Handler(userAgent: string, headers: Headers)

  function SpecialHandler(domain: string): Option<Handler> {
    if domain == "bit.ly" then Some(Handler(
      "Mozilla/5.0 (iPhone; CPU iPhone OS 13_2_3 like Mac OS X) AppleWebKit/605.1.15 (KHTML, like Gecko) Version/13.0.3 Mobile/15E148 Safari/604.1",
      [("Accept", "text/html,application/xhtml+xml,application/xml;q=0.9,image/avif,image/webp,*/*;q=0.8"),
       ("Accept-Language", "en-US,en;q=0.5"),
       ("Accept-Encoding", "gzip, deflate, br"),
       ("Referer", "https://www.google.com/"),
       ("DNT", "1"),
       ("Connection", "keep-alive"),
       ("Upgrade-Insecure-Requests", "1"),
       ("Sec-Fetch-Dest", "document"),
       ("Sec-Fetch-Mode", "navigate"),
       ("Sec-Fetch-Site", "cross-site"),
       ("Pragma", "no-cache"),
       ("Cache-Control", "no-cache")]))
    else if domain == "t.co" then Some(Handler(ChromeAgent,
      [("Accept", "text/html,application/xhtml+xml,application/xml;q=0.9,image/webp,*/*;q=0.8"),
       ("Accept-Language", "en-US,en;q=0.5"),
       ("Referer", "https://twitter.com/"),
       ("Connection", "keep-alive"),
       ("Upgrade-Insecure-Requests", "1")]))
    else if domain == "goo.gl" then Some(Handler(
      "Mozilla/5.0 (Macintosh; Intel Mac OS X 10_15_7) AppleWebKit/605.1.15 (KHTML, like Gecko) Version/14.0 Safari/605.1.15",
      [("Accept", "text/html,application/xhtml+xml,application/xml;q=0.9,*/*;q=0.8"),
       ("Accept-Language", "en-US,en;q=0.9"),
       ("Connection", "keep-alive"),
       ("Upgrade-Insecure-Requests", "1")]))
    else None
  }

  /** `_get_headers_for_domain`: a special domain's own headers with its User-Agent set; any
      other domain gets the default headers. A new value each time, so callers cannot alter the
      tables. */
  function HeadersFor(domain: string): (h: Headers)
    ensures SpecialHandler(domain).Some? ==>
      && HeaderValue(h, "User-Agent") == Some(SpecialHandler(domain).value.userAgent)
      && forall k :: k != "User-Agent" ==> HeaderValue(h, k) == HeaderValue(SpecialHandler(domain).value.headers, k)
    ensures SpecialHandler(domain).None? ==> h == DefaultHeaders
  {
    match SpecialHandler(domain)
    case Some(handler) => SetHeader(handler.headers, "User-Agent", handler.userAgent)
    case None => DefaultHeaders
  }

  // ---------------------------------------------------------------------------
  // Recognising shortened URLs

  /** The URL with "https://" put in front unless it starts with "http://" or "https://". */
  function WithScheme(url: string): (u: string)
    ensures StartsWith(u, "http://") || StartsWith(u, "https://")
    ensures StartsWith(url, "http://") || StartsWith(url, "https://") ==> u == url
  {
    if StartsWith(url, "http://") || StartsWith(url, "https://") then url
    else assert ("https://" + url)[..8] == "https://"; "https://" + url
  }

  lemma WithSchemeIdempotent(url: string)
    ensures WithScheme(WithScheme(url)) == WithScheme(url)
  {
  }

  /** `_get_domain_from_url` of the unshortener: the lower-cased host without "www."; None
      where `urlparse` raises (it is not caught here). */
  function HostOf(url: string): Option<string> {
    match ParseUrl(url)
    case None => None
    case Some(p) => Some(DropWww(Lower(p.netloc)))
  }

  /** `s.strip(c)`. */
  function StripChar(s: string, c: char): (r: string)
    ensures |r| <= |s|
    ensures r == [] || (r[0] != c && r[|r| - 1] != c)
  {
    var left := StripLeading(s, c);
    StripTrailing(left, c)
  }

  function StripLeading(s: string, c: char): (r: string)
    ensures |r| <= |s| && r == s[|s| - |r|..]
    ensures r == [] || r[0] != c
  {
    if s != [] && s[0] == c then StripLeading(s[1..], c) else s
  }

  /** `[a-zA-Z0-9_-]`. */
  predicate IsSlugChar(c: char) {
    IsAsciiLetter(c) || IsDigit(c) || c == '_' || c == '-'
  }

  /** A short path of letters, digits, '_' and '-': what generated short codes look like. */
  predicate ShortCode(path: string) {
    path != [] && |path| < 10 && forall i :: 0 <= i < |path| ==> IsSlugChar(path[i])
  }

  /** `is_shortened_url`: false for the empty URL; otherwise, with "https://" added when the
      scheme is missing, true for a listed shortener host, a short-code path or a URL under 30
      characters. None where `urlparse` raises. */
  function IsShortened(url: string): (r: Option<bool>)
  {
    if url == "" then Some(false)
    else
      var u := WithScheme(url);
      match ParseUrl(u)
      case None => None
      case Some(p) =>
        if DropWww(Lower(p.netloc)) in ShortUrlDomains then Some(true)
        else if ShortCode(StripChar(p.path, '/')) then Some(true)
        else Some(|u| < 30)
  }

  /** Whether the URL is judged shortened is the same with or without the added scheme. */
  lemma IsShortenedWithScheme(url: string)
    requires url != ""
    ensures IsShortened(WithScheme(url)) == IsShortened(url)
  {
    WithSchemeIdempotent(url);
    assert WithScheme(url) != "";
  }

  /** Any URL of under 30 characters (after the scheme is added) that parses is judged
      shortened, and a listed shortener host always is. */
  lemma IsShortenedShortOrListed(url: string)
    requires url != "" && ParseUrl(WithScheme(url)).Some?
    requires |WithScheme(url)| < 30 || DropWww(Lower(ParseUrl(WithScheme(url)).value.netloc)) in ShortUrlDomains
    ensures IsShortened(url) == Some(true)
  {
  }

  /** A URL is judged not shortened only when it is long, its host is not listed and its path
      is not a short code. */
  lemma NotShortenedMeans(url: string)
    requires IsShortened(url) == Some(false) && url != ""
    ensures |WithScheme(url)| >= 30
    ensures var p := ParseUrl(WithScheme(url)).value;
      DropWww(Lower(p.netloc)) !in ShortUrlDomains && !ShortCode(StripChar(p.path, '/'))
  {
  }

  // ---------------------------------------------------------------------------
  // Following redirects

  /** What one request got back. `Redirect` is a 301/302/303/307/308 answer with its Location
      header ("" when absent); `Page` any other status, with the script redirect found in a 200
      body; `ClientError` a connection-level failure; `Raised` any other exception. */
  datatype Response =
    | Redirect(location: string)
    | Page(status: int, scriptRedirect: Option<string>)
    | ClientError
    | Raised(error: string)

  /** `url.split('://', 1)[0]`. */
  function SchemeText(url: string): string {
    var k := Find(url, "://");
    if k == -1 then url else url[..k]
  }

  predicate IsAbsolute(location: string) {
    StartsWith(location, "http://") || StartsWith(location, "https://")
  }

  /** A Location relative to `url`'s scheme and host: after the host as is when it starts with
      '/', after "host/" otherwise; an absolute one is kept. */
  function ResolveOn(url: string, host: string, location: string): (r: string)
    ensures IsAbsolute(location) ==> r == location
    ensures !IsAbsolute(location) ==> StartsWith(r, SchemeText(url) + "://" + host)
    ensures !IsAbsolute(location) && StartsWith(location, "/") ==> r == SchemeText(url) + "://" + host + location
    ensures !IsAbsolute(location) && !StartsWith(location, "/") ==> r == SchemeText(url) + "://" + host + "/" + location
  {
    if IsAbsolute(location) then location
    else
      var front := SchemeText(url) + "://" + host;
      var r := if StartsWith(location, "/") then front + location else front + "/" + location;
      assert r[..|front|] == front;
      r
  }

  /** `ResolveOn` with the current URL's own host, None where reading the host raises. */
  function Resolve(url: string, location: string): (r: Option<string>)
    ensures IsAbsolute(location) ==> r == Some(location)
  {
    if IsAbsolute(location) then Some(location)
    else match HostOf(url)
      case None => None
      case Some(host) => Some(ResolveOn(url, host, location))
  }

  const InvalidHost := "Invalid IPv6 URL"

  /** The GET loop of `unshorten_with_requests`: at most `maxRedirects` redirects (header or
      script) are followed, each to a URL not yet in the history; it stops at the first answer
      that is not a redirect, a redirect without Location, a loop back, or a client error. The
      server's answer to the n-th request for a URL is `get(n, url)`. */
  method FollowGets(history0: seq<string>, maxRedirects: int, get: (nat, string) -> Response)
    returns (history: seq<string>, error: Option<string>)
    requires history0 != []
    ensures |history0| <= |history| <= |history0| + Max(maxRedirects, 0)
    ensures history[..|history0|] == history0
    ensures forall i :: |history0| <= i < |history| ==> history[i] !in history[..i]
  {
    history := history0;
    error := None;
    var redirects := 0;
    var current := history0[|history0| - 1];
    while redirects < maxRedirects
      invariant 0 <= redirects && |history| == |history0| + redirects
      invariant redirects <= Max(maxRedirects, 0)
      invariant history[..|history0|] == history0
      invariant forall i :: |history0| <= i < |history| ==> history[i] !in history[..i]
      decreases maxRedirects - redirects
    {
      var next: Option<string> := None;
      match get(redirects, current) {
      case Redirect(location) =>
        if location == "" {
          break;
        }
        var resolved := Resolve(current, location);
        if resolved.None? {
          error := Some(InvalidHost);
          return;
        }
        if resolved.value in history {
          break;
        }
        next := resolved;
      case Page(status, script) =>
        if status != 200 || script.None? || script.value == "" {
          break;
        }
        var resolved := Resolve(current, script.value);
        if resolved.None? {
          error := Some(InvalidHost);
          return;
        }
        if resolved.value in history {
          break;
        }
        next := resolved;
      case ClientError =>
        break;
      case Raised(e) =>
        error := Some(e);
        return;
      }
      AppendFresh(history, next.value, |history0|);
      history := history + [next.value];
      current := next.value;
      redirects := redirects + 1;
    }
  }

  lemma AppendFresh(history: seq<string>, x: string, n: nat)
    requires n <= |history| && x !in history
    requires forall i :: n <= i < |history| ==> history[i] !in history[..i]
    ensures forall i :: n <= i < |history| + 1 ==> (history + [x])[i] !in (history + [x])[..i]
  {
    forall i | n <= i < |history| + 1 ensures (history + [x])[i] !in (history + [x])[..i] {
      if i < |history| {
        assert (history + [x])[..i] == history[..i];
      } else {
        assert (history + [x])[..i] == history;
      }
    }
  }

  /** What an expansion reports. `redirectCount` is absent from failures. */
  datatype Expansion = Expansion(
    original: string, final: string, success: bool, via: string,
    redirectCount: Option<int>, history: seq<string>, error: Option<string>)

  /** `unshorten_with_requests`: one HEAD request may redirect the starting URL (without the
      loop check), then the GET loop runs from there. Success reports the last URL of the
      history and one redirect fewer than history entries. None where reading the starting
      host raises, which happens before any request. */
  method UnshortenWithRequests(url0: string, maxRedirects: int, head: Response, get: (nat, string) -> Response)
    returns (r: Option<Expansion>)
    ensures r.None? <==> HostOf(WithScheme(url0)).None?
    ensures r.Some? && r.value.success ==>
      && r.value.history != []
      && r.value.final == r.value.history[|r.value.history| - 1]
      && r.value.redirectCount == Some(|r.value.history| - 1)
    ensures r.Some? ==> 1 <= |r.value.history| <= 2 + Max(maxRedirects, 0)
    ensures r.Some? ==> r.value.history[0] == WithScheme(url0)
    ensures r.Some? && !r.value.success ==> r.value.final == r.value.original && r.value.error.Some?
    ensures r.Some? && (!head.Redirect? || head.location == "") ==> NoDuplicates(r.value.history)
  {
    var url := WithScheme(url0);
    var host := HostOf(url);
    if host.None? {
      return None;
    }
    var history := [url];
    if head.Redirect? && head.location != "" {
      var location := ResolveOn(url, host.value, head.location);
      history := history + [location];
      url := location;
    } else if head.Raised? {
      return Some(Expansion(url, url, false, "requests", None, history, Some(head.error)));
    }
    var history0 := history;
    var error;
    history, error := FollowGets(history, maxRedirects, get);
    assert history[0] == history[..|history0|][0] == history0[0] == WithScheme(url0);
    if history0 == [WithScheme(url0)] {
      NoDuplicatesFresh(history, 1);
    }
    if error.Some? {
      return Some(Expansion(url, url, false, "requests", None, history, error));
    }
    return Some(Expansion(url, history[|history| - 1], true, "requests", Some(|history| - 1), history, None));
  }

  lemma NoDuplicatesFresh(history: seq<string>, n: nat)
    requires 1 <= n <= |history| && NoDuplicates(history[..n])
    requires forall i :: n <= i < |history| ==> history[i] !in history[..i]
    ensures NoDuplicates(history)
  {
    forall i, j | 0 <= i < j < |history| ensures history[i] != history[j] {
      if j >= n {
        assert history[i] in history[..j];
      } else {
        assert history[..n][i] == history[i] && history[..n][j] == history[j];
      }
    }
  }

  /** A useful expansion: it succeeded and landed somewhere other than where it started. */
  predicate Moved(e: Expansion, url: string) {
    e.success && e.final != url && e.final != e.original
  }

  /** `unshorten_url` once the requests-based expansion is known (None where it raised) and,
      when the browser is in use, the browser's expansion: disabled returns the input as is,
      the empty URL fails, and otherwise the first expansion that moved wins, then the first
      that succeeded, then a combined failure. */
  function ChooseExpansion(enabled: bool, url0: string, requests: Option<Expansion>, useBrowser: bool, browser: Expansion): (r: Option<Expansion>)
    ensures !enabled ==> r == Some(Expansion(url0, url0, true, "none", None, [], None))
    ensures enabled && url0 == "" ==> r.Some? && !r.value.success && r.value.final == ""
    ensures enabled && url0 != "" && requests.Some? && Moved(requests.value, WithScheme(url0)) ==> r == requests
    ensures enabled && url0 != "" && requests.Some? && r.Some? && r.value.success ==>
      r == requests || (useBrowser && r == Some(browser))
    ensures enabled && url0 != "" && requests.Some? && r.Some? && !r.value.success ==>
      r.value.final == WithScheme(url0) && !requests.value.success && !(useBrowser && browser.success)
  {
    if !enabled then Some(Expansion(url0, url0, true, "none", None, [], None))
    else if url0 == "" then Some(Expansion("", "", false, "", None, [], Some("Empty URL provided")))
    else
      var url := WithScheme(url0);
      match requests
      case None => None
      case Some(req) =>
        if Moved(req, url) then requests
        else if useBrowser && Moved(browser, url) then Some(browser)
        else if req.success then requests
        else if useBrowser && browser.success then Some(browser)
        else
          var errors := (if req.error.Some? then ["Requests error: " + req.error.value] else [])
            + (if useBrowser && browser.error.Some? then ["Selenium error: " + browser.error.value] else []);
          Some(Expansion(url, url, false, "combined", None, [], Some(if errors == [] then "Unknown error" else Join(errors, " | "))))
  }

  /** `extract_urls` of the unshortener, with the pattern's matches given: the matches without
      repeats, in first-occurrence order. */
  function DistinctUrls(text: string, matches: seq<string>): (r: seq<string>)
    ensures NoDuplicates(r)
    ensures forall u :: u in r <==> text != "" && u in matches
  {
    if text == "" then [] else Dedupe(matches)
  }

  /** `unshorten_urls` once every expansion is known (None where one raised, which makes the
      whole batch raise): the results keyed by their original URL, a later result replacing an
      earlier one with the same original. */
  function ByOriginal(results: seq<Option<Expansion>>): Option<map<string, Expansion>>
    decreases |results|
  {
    if results == [] then Some(map[])
    else
      var last := results[|results| - 1];
      match ByOriginal(results[..|results| - 1])
      case None => None
      case Some(m) => if last.None? then None else Some(m[last.value.original := last.value])
  }

  /** The batch fails exactly when one expansion raised; otherwise every original URL is a
      key, and it holds the last result reported for that original. */
  lemma {:induction false} ByOriginalLastWins(results: seq<Option<Expansion>>, i: nat)
    requires i < |results|
    ensures ByOriginal(results).None? <==> exists j :: 0 <= j < |results| && results[j].None?
    ensures ByOriginal(results).Some? ==>
      && results[i].value.original in ByOriginal(results).value
      && ((forall j :: i < j < |results| ==> results[j].value.original != results[i].value.original) ==>
            ByOriginal(results).value[results[i].value.original] == results[i].value)
    decreases |results|
  {
    var front := results[..|results| - 1];
    if i < |front| {
      ByOriginalLastWins(front, i);
      assert forall j :: 0 <= j < |front| ==> front[j] == results[j];
    } else if front != [] {
      ByOriginalLastWins(front, 0);
      assert forall j :: 0 <= j < |front| ==> front[j] == results[j];
    } else {
      assert results == [results[0]];
    }
  }
}
