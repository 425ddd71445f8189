/** The blacklist of known malicious URLs and domains, with the URL normalisation it keys on.
    URLs are split the way Python's `urllib.parse.urlparse` splits them and rebuilt the way
    `urlunparse` rebuilds them. The JSON file behind the caches is not modelled. */
module UrlBlacklist {
  import opened Common

  // ---------------------------------------------------------------------------
  // urllib.parse, as far as the normalisation uses it

  /** The six components `urlparse` returns. */
  datatype Url = Url(scheme: string, netloc: string, path: string, params: string, query: string, fragment: string)

  /** Schemes whose last path segment may carry `;params`. */
  const UsesParams: seq<string> :=
    ["", "ftp", "hdl", "prospero", "http", "imap", "https", "shttp", "rtsp", "rtspu", "sip", "sips", "mms", "sftp", "tel"]

  /** Schemes that are rebuilt with a `//` authority even when it is empty. */
  const UsesNetloc: seq<string> :=
    ["", "ftp", "http", "gopher", "nntp", "telnet", "imap", "wais", "file", "mms", "https", "shttp", "snews",
     "prospero", "rtsp", "rtspu", "rsync", "svn", "svn+ssh", "sftp", "nfs", "git", "git+ssh", "ws", "wss"]

  predicate IsAsciiLetter(c: char) {
    'a' <= c <= 'z' || 'A' <= c <= 'Z'
  }

  predicate IsSchemeChar(c: char) {
    IsAsciiLetter(c) || IsDigit(c) || c == '+' || c == '-' || c == '.'
  }

  predicate IsUpper(c: char) {
    'A' <= c <= 'Z'
  }

  predicate NoUpper(s: string) {
    forall c :: c in s ==> !IsUpper(c)
  }

  /** The characters `urlsplit` deletes before splitting. */
  predicate IsUnsafeUrlChar(c: char) {
    c == '\t' || c == '\r' || c == '\n'
  }

  /** Every character of `part` occurs in `s`. */
  predicate CharsFrom(part: string, s: string) {
    forall c :: c in part ==> c in s
  }

  /** Index of the first character of `s` in `cs`, or |s|. */
  function IndexOfAny(s: string, cs: set<char>): (k: nat)
    ensures k <= |s|
    ensures forall j :: 0 <= j < k ==> s[j] !in cs
    ensures k < |s| ==> s[k] in cs
  {
    if s == [] || s[0] in cs then 0 else 1 + IndexOfAny(s[1..], cs)
  }

  /** `s.split(c, 1)` when `c in s`, and `(s, "")` otherwise. */
  function SplitOnce(s: string, c: char): (r: (string, string))
    ensures c !in r.0
    ensures c in s ==> s == r.0 + [c] + r.1
    ensures c !in s ==> r == (s, "")
    ensures CharsFrom(r.0, s) && CharsFrom(r.1, s)
  {
    if c in s then
      var k := IndexOfAny(s, {c});
      assert s == s[..k] + [c] + s[k + 1..];
      (s[..k], s[k + 1..])
    else (s, "")
  }

  /** `s.rfind(c)`. */
  function LastIndexOf(s: string, c: char): (k: int)
    ensures -1 <= k < |s|
    ensures k == -1 <==> c !in s
    ensures k >= 0 ==> s[k] == c && c !in s[k + 1..]
  {
    if s == [] then -1
    else if s[|s| - 1] == c then |s| - 1
    else
      var k := LastIndexOf(s[..|s| - 1], c);
      assert s == s[..|s| - 1] + [s[|s| - 1]];
      if k >= 0 then assert s[k + 1..] == s[..|s| - 1][k + 1..] + [s[|s| - 1]]; k else k
  }

  /** `_splitparams`, called only when the path holds a ';': the parameters follow the first ';'
      of the last path segment. */
  function SplitParams(u: string): (r: (string, string))
    requires ';' in u
    ensures u == r.0 + [';'] + r.1 || r == (u, "")
    ensures '/' !in r.1
  {
    if '/' in u then
      var slash := LastIndexOf(u, '/');
      var tail := u[slash..];
      if ';' in tail then
        var i := slash + IndexOfAny(tail, {';'});
        assert u == u[..i] + [';'] + u[i + 1..];
        assert u[i + 1..] == u[slash + 1..][i - slash..];
        (u[..i], u[i + 1..])
      else (u, "")
    else
      var i := IndexOfAny(u, {';'});
      assert u == u[..i] + [';'] + u[i + 1..];
      (u[..i], u[i + 1..])
  }

  /** The scheme, when the text before the first ':' is a letter followed by scheme characters;
      it is lower-cased and cut off with its ':'. */
  function SplitScheme(s: string): (r: (string, string))
    ensures r.0 == "" ==> r.1 == s
    ensures r.0 != "" ==> |r.0| < |s| && s == s[..|r.0|] + ":" + r.1
    ensures forall j :: 0 <= j < |r.0| ==> IsSchemeChar(r.0[j])
    ensures r.0 != "" ==> IsAsciiLetter(r.0[0])
    ensures NoUpper(r.0) && CharsFrom(r.1, s)
  {
    var i := IndexOfAny(s, {':'});
    if 0 < i < |s| && IsAsciiLetter(s[0]) && (forall j :: 0 <= j < i ==> IsSchemeChar(s[j])) then
      assert s == s[..i] + ":" + s[i + 1..];
      (Lower(s[..i]), s[i + 1..])
    else ("", s)
  }

  /** The authority after a leading "//", up to the first '/', '?' or '#'. */
  function SplitNetloc(s: string): (r: (string, string))
    ensures !StartsWith(s, "//") ==> r == ("", s)
    ensures StartsWith(s, "//") ==> s == "//" + r.0 + r.1
    ensures '/' !in r.0 && '?' !in r.0 && '#' !in r.0
    ensures StartsWith(s, "//") ==> r.1 == [] || r.1[0] in {'/', '?', '#'}
    ensures CharsFrom(r.0, s) && CharsFrom(r.1, s)
  {
    if StartsWith(s, "//") then
      var rest := s[2..];
      var k := IndexOfAny(rest, {'/', '?', '#'});
      assert s == "//" + rest[..k] + rest[k..];
      (rest[..k], rest[k..])
    else ("", s)
  }

  predicate SplitsParams(scheme: string) {
    scheme in UsesParams
  }

  predicate KeepsNetloc(scheme: string) {
    scheme in UsesNetloc
  }

  /** Path, parameters, query and fragment of what follows the authority. */
  function SplitTail(scheme: string, s: string): (r: (string, string, string, string))
    ensures '#' !in r.0 && '#' !in r.1 && '#' !in r.2
    ensures '?' !in r.0 && '?' !in r.1 && '/' !in r.1
    ensures CharsFrom(r.0, s) && CharsFrom(r.1, s) && CharsFrom(r.2, s)
  {
    var (beforeFragment, fragment) := SplitOnce(s, '#');
    var (beforeQuery, query) := SplitOnce(beforeFragment, '?');
    assert '#' !in query by {
      if '?' in beforeFragment {
        assert beforeFragment == beforeQuery + ['?'] + query;
      }
    }
    if SplitsParams(scheme) && ';' in beforeQuery then
      var (path, params) := SplitParams(beforeQuery);
      assert CharsFrom(path, beforeQuery) && CharsFrom(params, beforeQuery) by {
        if path + params != beforeQuery {
          assert beforeQuery == path + [';'] + params;
        }
      }
      (path, params, query, fragment)
    else (beforeQuery, "", query, fragment)
  }

  /** The text without the tabs and line breaks `urlsplit` deletes. */
  function RemoveUnsafe(s: string): string {
    if s == [] then [] else (if IsUnsafeUrlChar(s[0]) then [] else [s[0]]) + RemoveUnsafe(s[1..])
  }

  lemma {:induction false} RemoveUnsafeChars(s: string)
    ensures forall c :: c in RemoveUnsafe(s) ==> c in s && !IsUnsafeUrlChar(c)
    decreases |s|
  {
    if s != [] {
      RemoveUnsafeChars(s[1..]);
    }
  }

  /** `urlparse`: None where it raises (a host with only one of '[' and ']'). */
  function ParseUrl(url: string): Option<Url>
  {
    var s := RemoveUnsafe(url);
    var (scheme, afterScheme) := SplitScheme(s);
    var (netloc, afterNetloc) := SplitNetloc(afterScheme);
    if ('[' in netloc) != (']' in netloc) then None
    else
      var (path, params, query, fragment) := SplitTail(scheme, afterNetloc);
      Some(Url(scheme, netloc, path, params, query, fragment))
  }

  /** What each component of a parse may hold: the scheme is a valid lower-case scheme, and
      no part holds a character `urlsplit` deletes or the delimiter that ends it. */
  predicate WellSplit(p: Url) {
    && (forall j :: 0 <= j < |p.scheme| ==> IsSchemeChar(p.scheme[j]))
    && (p.scheme != "" ==> IsAsciiLetter(p.scheme[0]))
    && NoUpper(p.scheme)
    && (forall c :: c in p.netloc + p.path + p.params + p.query ==> !IsUnsafeUrlChar(c))
    && '#' !in p.netloc && '#' !in p.path && '#' !in p.params && '#' !in p.query
    && '/' !in p.netloc && '?' !in p.netloc && '?' !in p.path && '?' !in p.params && '/' !in p.params
    && (('[' in p.netloc) <==> (']' in p.netloc))
  }

  /** A parse is well split, and its parts other than the scheme are made of the input's
      characters. */
  lemma ParseFacts(url: string)
    requires ParseUrl(url).Some?
    ensures WellSplit(ParseUrl(url).value)
    ensures var p := ParseUrl(url).value;
      CharsFrom(p.netloc, url) && CharsFrom(p.path, url) && CharsFrom(p.params, url) && CharsFrom(p.query, url)
  {
    var s := RemoveUnsafe(url);
    RemoveUnsafeChars(url);
    var (scheme, afterScheme) := SplitScheme(s);
    var (netloc, afterNetloc) := SplitNetloc(afterScheme);
    var (path, params, query, fragment) := SplitTail(scheme, afterNetloc);
  }

  /** `urlunparse`: scheme, authority and path, query, fragment, each with its delimiter. */
  function UnparseUrl(u: Url): string {
    SchemePart(u.scheme) + AuthorityPart(u) + QueryPart(u.query) + FragmentPart(u.fragment)
  }

  function SchemePart(scheme: string): string {
    if scheme != "" then scheme + ":" else ""
  }

  /** The path with its parameters, behind "//" and the host when there is a host or the
      scheme always has one; a path that does not start with '/' then gets one. */
  function AuthorityPart(u: Url): string {
    var url := PathPart(u);
    if u.netloc != "" || (u.scheme != "" && KeepsNetloc(u.scheme) && !StartsWith(url, "//")) then
      "//" + u.netloc + Rooted(url)
    else url
  }

  /** The path, with ";" and the parameters when there are any. */
  function PathPart(u: Url): string {
    if u.params != "" then u.path + ";" + u.params else u.path
  }

  function Rooted(url: string): string {
    if url != "" && url[0] != '/' then "/" + url else url
  }

  function QueryPart(query: string): string {
    if query != "" then "?" + query else ""
  }

  function FragmentPart(fragment: string): string {
    if fragment != "" then "#" + fragment else ""
  }

  /** The host without one leading "www.". */
  function DropWww(host: string): (h: string)
    ensures StartsWith(host, "www.") ==> host == "www." + h
    ensures !StartsWith(host, "www.") ==> h == host
    ensures CharsFrom(h, host)
  {
    if StartsWith(host, "www.") then assert host == "www." + host[4..]; host[4..] else host
  }

  lemma DropWwwBrackets(host: string)
    ensures ('[' in DropWww(host) <==> '[' in host) && (']' in DropWww(host) <==> ']' in host)
  {
    if StartsWith(host, "www.") {
      assert host == "www." + DropWww(host);
    }
  }

  /** `s.rstrip(c)`. */
  function StripTrailing(s: string, c: char): (r: string)
    ensures |r| <= |s| && r == s[..|r|]
    ensures r == [] || r[|r| - 1] != c
    ensures forall i :: |r| <= i < |s| ==> s[i] == c
    ensures CharsFrom(r, s)
  {
    if s != [] && s[|s| - 1] == c then StripTrailing(s[..|s| - 1], c) else s
  }

  /** The components a normalised URL is rebuilt from. */
  function NormalParts(p: Url): Url {
    p.(netloc := DropWww(p.netloc), path := StripTrailing(p.path, '/'), fragment := "")
  }

  /** `_normalize_url`: lower-cased and stripped, then re-assembled without a leading "www.",
      trailing slashes or the fragment; the lower-cased, stripped text where parsing raises. */
  function NormalizeUrl(url: string): string {
    var s := Prepared(url);
    match ParseUrl(s)
    case None => s
    case Some(p) => UnparseUrl(NormalParts(p))
  }

  /** `_get_domain_from_url`: the lower-cased host without a leading "www.", or "" where
      parsing raises. */
  function DomainOf(url: string): string {
    match ParseUrl(url)
    case None => ""
    case Some(p) => DropWww(Lower(p.netloc))
  }

  /** `add_domain`/`remove_domain` key: lower-cased, stripped, without a leading "www."; so
      the key has no upper-case letter. */
  function NormalizeDomain(domain: string): (r: string)
    ensures NoUpper(r)
  {
    NoUpperFrom(DropWww(Prepared(domain)), Prepared(domain));
    DropWww(Prepared(domain))
  }

  // ---------------------------------------------------------------------------
  // What the normalisation guarantees

  lemma NoUpperFrom(part: string, s: string)
    requires NoUpper(s) && CharsFrom(part, s)
    ensures NoUpper(part)
  {
  }

  lemma NoUpperLower(s: string)
    ensures NoUpper(Lower(s))
  {
    forall c | c in Lower(s) ensures !IsUpper(c) {
      var i :| 0 <= i < |s| && Lower(s)[i] == c;
    }
  }

  lemma NoUpperSlice(s: string, k: nat, n: nat)
    requires NoUpper(s) && k + n <= |s|
    ensures NoUpper(s[k..k + n])
  {
    forall c | c in s[k..k + n] ensures c in s {
      var i :| 0 <= i < n && s[k..k + n][i] == c;
      assert s[k + i] == c;
    }
  }

  lemma NoUpperStrip(s: string)
    requires NoUpper(s)
    ensures NoUpper(Strip(s))
  {
    var r := Strip(s);
    assert Contains(s, r);
    var k :| 0 <= k <= |s| - |r| && OccursAt(s, r, k);
    NoUpperSlice(s, k, |r|);
  }

  /** The text a URL is normalised from: lower-cased and stripped. */
  function Prepared(url: string): (s: string)
    ensures NoUpper(s)
  {
    NoUpperLower(url);
    NoUpperStrip(Lower(url));
    Strip(Lower(url))
  }

  /** The normalised URL is rebuilt from the normalised parts of the prepared text. */
  lemma NormalizeParsed(url: string)
    requires ParseUrl(Prepared(url)).Some?
    ensures var p := ParseUrl(Prepared(url)).value; var q := NormalParts(p);
      && NormalizeUrl(url) == UnparseUrl(q)
      && WellSplit(q) && q.fragment == ""
      && NoUpper(q.netloc) && NoUpper(q.path) && NoUpper(q.params) && NoUpper(q.query)
  {
    var s := Prepared(url);
    ParseFacts(s);
    var p := ParseUrl(s).value;
    var q := NormalParts(p);
    assert CharsFrom(q.netloc, p.netloc) && CharsFrom(q.path, p.path);
    assert forall c :: c in q.netloc + q.path + q.params + q.query ==> c in p.netloc + p.path + p.params + p.query;
    DropWwwBrackets(p.netloc);
    NoUpperFrom(p.netloc, s);
    NoUpperFrom(p.path, s);
    NoUpperFrom(q.netloc, p.netloc);
    NoUpperFrom(q.path, p.path);
  }

  /** Every character of a rebuilt URL comes from a part or is a delimiter; '#' only with a
      fragment. */
  lemma UnparseChars(u: Url)
    ensures forall c :: c in UnparseUrl(u) ==>
      c in u.scheme + u.netloc + u.path + u.params + u.query + ":/;?" || (u.fragment != "" && c in "#" + u.fragment)
  {
    var url := PathPart(u);
    assert forall c :: c in Rooted(url) ==> c in url || c == '/';
    assert forall c :: c in AuthorityPart(u) ==> c in u.netloc || c in url || c == '/';
  }

  /** Parts without upper-case letters are rebuilt into a URL without one. */
  lemma UnparseNoUpper(q: Url)
    requires NoUpper(q.scheme) && NoUpper(q.netloc) && NoUpper(q.path) && NoUpper(q.params) && NoUpper(q.query)
    requires q.fragment == ""
    ensures NoUpper(UnparseUrl(q))
  {
    UnparseChars(q);
    forall c | c in UnparseUrl(q) ensures !IsUpper(c) {
      assert c in q.scheme || c in q.netloc || c in q.path || c in q.params || c in q.query || c in ":/;?";
    }
  }

  /** The normalised URL has no upper-case letter. */
  lemma NormalizeLowerCase(url: string)
    ensures NoUpper(NormalizeUrl(url))
  {
    if ParseUrl(Prepared(url)).Some? {
      NormalizeParsed(url);
      UnparseNoUpper(NormalParts(ParseUrl(Prepared(url)).value));
    }
  }

  /** The normalised URL carries no fragment (when the input parses). */
  lemma NormalizeDropsFragment(url: string)
    requires ParseUrl(Prepared(url)).Some?
    ensures '#' !in NormalizeUrl(url)
  {
    NormalizeParsed(url);
    UnparseNoFragment(NormalParts(ParseUrl(Prepared(url)).value));
  }

  lemma UnparseNoFragment(u: Url)
    requires WellSplit(u) && u.fragment == ""
    ensures '#' !in UnparseUrl(u)
  {
    UnparseChars(u);
  }

  /** A non-empty query is kept, at the very end. */
  lemma NormalizeKeepsQuery(url: string)
    requires ParseUrl(Prepared(url)).Some? && ParseUrl(Prepared(url)).value.query != ""
    ensures EndsWith(NormalizeUrl(url), "?" + ParseUrl(Prepared(url)).value.query)
  {
    var q := NormalParts(ParseUrl(Prepared(url)).value);
    var front := SchemePart(q.scheme) + AuthorityPart(q);
    assert NormalizeUrl(url) == front + ("?" + q.query);
    assert (front + ("?" + q.query))[|front|..] == "?" + q.query;
  }

  /** With a host and no query, the normalised URL does not end with '/'. */
  lemma NormalizeNoTrailingSlash(url: string)
    requires ParseUrl(Prepared(url)).Some?
    requires var p := ParseUrl(Prepared(url)).value; p.query == "" && DropWww(p.netloc) != ""
    ensures NormalizeUrl(url) != [] && NormalizeUrl(url)[|NormalizeUrl(url)| - 1] != '/'
  {
    NormalizeParsed(url);
    var p := ParseUrl(Prepared(url)).value;
    var q := NormalParts(p);
    assert '/' !in q.netloc && '/' !in q.params && q.netloc != "";
    assert q.path == StripTrailing(p.path, '/');
    UnparseNoTrailingSlash(q);
  }

  lemma UnparseNoTrailingSlash(q: Url)
    requires '/' !in q.netloc && '/' !in q.params && q.query == "" && q.fragment == "" && q.netloc != ""
    requires q.path == [] || q.path[|q.path| - 1] != '/'
    ensures UnparseUrl(q) != [] && UnparseUrl(q)[|UnparseUrl(q)| - 1] != '/'
  {
    var front := SchemePart(q.scheme) + "//";
    assert UnparseUrl(q) == front + q.netloc + Rooted(PathPart(q));
    if PathPart(q) == [] {
      assert UnparseUrl(q) == front + q.netloc;
      LastOfAppend(front, q.netloc);
      assert q.netloc[|q.netloc| - 1] in q.netloc;
    } else {
      LastOfAppend(front + q.netloc, Rooted(PathPart(q)));
      PathLast(q);
    }
  }

  /** A non-empty path part ends with the last character of the parameters, or of the path. */
  lemma PathLast(q: Url)
    requires PathPart(q) != [] && '/' !in q.params
    requires q.path == [] || q.path[|q.path| - 1] != '/'
    ensures Rooted(PathPart(q))[|Rooted(PathPart(q))| - 1] != '/'
  {
    var url := PathPart(q);
    assert Rooted(url)[|Rooted(url)| - 1] == url[|url| - 1];
    if q.params != "" {
      LastOfAppend(q.path + ";", q.params);
      assert q.params[|q.params| - 1] in q.params;
    }
  }

  lemma LastOfAppend<T>(a: seq<T>, b: seq<T>)
    requires b != []
    ensures (a + b)[|a + b| - 1] == b[|b| - 1]
  {
  }


  /** Re-parsing the normalised URL of `scheme://host/...` finds the host without its leading
      "www.", so the domain check sees the same host the URL was filed under. */
  lemma NormalizeHost(url: string)
    requires ParseUrl(Prepared(url)).Some?
    requires var p := ParseUrl(Prepared(url)).value; p.scheme != "" && DropWww(p.netloc) != ""
    ensures ParseUrl(NormalizeUrl(url)).Some?
    ensures ParseUrl(NormalizeUrl(url)).value.scheme == ParseUrl(Prepared(url)).value.scheme
    ensures ParseUrl(NormalizeUrl(url)).value.netloc == DropWww(ParseUrl(Prepared(url)).value.netloc)
  {
    NormalizeParsed(url);
    UnparseReparses(NormalParts(ParseUrl(Prepared(url)).value));
  }

  /** What follows the host in a rebuilt URL. */
  function UnparseTail(u: Url): string {
    Rooted(PathPart(u)) + QueryPart(u.query)
  }

  lemma UnparseShape(q: Url)
    requires q.scheme != "" && q.netloc != "" && q.fragment == ""
    ensures UnparseUrl(q) == q.scheme + ":" + ("//" + q.netloc + UnparseTail(q))
    ensures UnparseTail(q) == [] || UnparseTail(q)[0] == '/' || UnparseTail(q)[0] == '?'
  {
  }

  lemma UnparseClean(q: Url)
    requires WellSplit(q) && q.fragment == ""
    ensures RemoveUnsafe(UnparseUrl(q)) == UnparseUrl(q)
  {
    UnparseChars(q);
    forall c | c in UnparseUrl(q) ensures !IsUnsafeUrlChar(c) {
      if c !in ":/;?" {
        assert c in q.scheme || c in q.netloc + q.path + q.params + q.query;
      }
    }
    RemoveUnsafeNoOp(UnparseUrl(q));
  }

  /** `urlparse` from its first two splits. */
  lemma ParseFromSplits(s: string, scheme: string, rest: string, netloc: string, tail: string)
    requires RemoveUnsafe(s) == s && SplitScheme(s) == (scheme, rest) && SplitNetloc(rest) == (netloc, tail)
    requires ('[' in netloc) <==> (']' in netloc)
    ensures ParseUrl(s).Some? && ParseUrl(s).value.scheme == scheme && ParseUrl(s).value.netloc == netloc
  {
  }

  /** A well-split URL with a scheme and a host is parsed back into the same scheme and host. */
  lemma UnparseReparses(q: Url)
    requires WellSplit(q) && q.scheme != "" && q.netloc != "" && q.fragment == ""
    ensures ParseUrl(UnparseUrl(q)).Some?
    ensures ParseUrl(UnparseUrl(q)).value.scheme == q.scheme
    ensures ParseUrl(UnparseUrl(q)).value.netloc == q.netloc
  {
    var tail := UnparseTail(q);
    UnparseShape(q);
    UnparseClean(q);
    SchemeOf(q.scheme, "//" + q.netloc + tail);
    NetlocOf(q.netloc, tail);
    ParseFromSplits(UnparseUrl(q), q.scheme, "//" + q.netloc + tail, q.netloc, tail);
  }

  lemma {:induction false} RemoveUnsafeNoOp(s: string)
    requires forall c :: c in s ==> !IsUnsafeUrlChar(c)
    ensures RemoveUnsafe(s) == s
    decreases |s|
  {
    if s != [] {
      assert s[0] in s;
      RemoveUnsafeNoOp(s[1..]);
    }
  }

  /** A valid lower-case scheme followed by ':' is split off again. */
  lemma SchemeOf(scheme: string, rest: string)
    requires scheme != [] && IsAsciiLetter(scheme[0]) && NoUpper(scheme)
    requires forall j :: 0 <= j < |scheme| ==> IsSchemeChar(scheme[j])
    ensures SplitScheme(scheme + ":" + rest) == (scheme, rest)
  {
    var s := scheme + ":" + rest;
    assert s == scheme + (":" + rest);
    forall c | c in scheme ensures c !in {':'} {
      var j :| 0 <= j < |scheme| && scheme[j] == c;
    }
    IndexOfAnyPrefix(scheme, ":" + rest, {':'});
    assert s[..|scheme|] == scheme;
    assert forall j :: 0 <= j < |scheme| ==> s[j] == scheme[j];
    assert forall j :: 0 <= j < |scheme| ==> LowerChar(scheme[j]) == scheme[j] by {
      forall j | 0 <= j < |scheme| ensures LowerChar(scheme[j]) == scheme[j] {
        assert scheme[j] in scheme;
      }
    }
    assert Lower(scheme) == scheme;
    assert s[|scheme| + 1..] == rest;
  }

  /** A host free of '/', '?' and '#' followed by '/', '?' or nothing is split off again. */
  lemma NetlocOf(netloc: string, tail: string)
    requires '/' !in netloc && '?' !in netloc && '#' !in netloc
    requires tail == [] || tail[0] == '/' || tail[0] == '?'
    ensures SplitNetloc("//" + netloc + tail) == (netloc, tail)
  {
    var s := "//" + netloc + tail;
    assert s[2..] == netloc + tail;
    IndexOfAnyPrefix(netloc, tail, {'/', '?', '#'});
    assert (netloc + tail)[..|netloc|] == netloc;
  }

  lemma {:induction false} IndexOfAnyPrefix(a: string, b: string, cs: set<char>)
    requires forall c :: c in a ==> c !in cs
    requires b == [] || b[0] in cs
    ensures IndexOfAny(a + b, cs) == |a|
    decreases |a|
  {
    if a != [] {
      assert a[0] in a;
      assert (a + b)[1..] == a[1..] + b;
      IndexOfAnyPrefix(a[1..], b, cs);
    }
  }

  // ---------------------------------------------------------------------------
  // The blacklist

  /** One blacklist record; `blacklistedAt` is None when a loaded record lacks a readable date. */
  datatype Entry = Entry(
    key: string, reason: string, threatTypes: seq<string>, severity: int, source: string,
    blacklistedAt: Option<int>, lastSeen: Option<int>)

  /** What a safety check reported, with the keys it may lack. */
  datatype SafetyReport = SafetyReport(
    isUnsafe: bool, threatTypes: Option<seq<string>>, severity: Option<int>, message: Option<string>)

  const DefaultReason := "Detected as unsafe by security scan"

  /** Whether a record is dropped by `cleanup_old_entries`: older than the cutoff, or undated. */
  predicate Expired(e: Entry, cutoff: int) {
    e.blacklistedAt.None? || e.blacklistedAt.value < cutoff
  }

  function Survivors(m: map<string, Entry>, cutoff: int): (r: map<string, Entry>)
    ensures r.Keys <= m.Keys
    ensures forall k :: k in r <==> k in m && !Expired(m[k], cutoff)
    ensures forall k :: k in r ==> r[k] == m[k]
  {
    map k | k in m && !Expired(m[k], cutoff) :: m[k]
  }

  class Blacklist {
    var urls: map<string, Entry>
    var domains: map<string, Entry>
    var shortened: map<string, string>

    /** A fresh blacklist, or one whose file could not be read: all three caches empty. */
    constructor ()
      ensures urls == map[] && domains == map[] && shortened == map[]
    {
      urls := map[];
      domains := map[];
      shortened := map[];
    }

    /** `is_blacklisted`: the exact normalised URL first, then the target a known short link
        (keyed on the raw URL) expands to, then the host; None for the empty URL. */
    function Lookup(url: string): (r: Option<Entry>)
      reads this
      ensures url == "" ==> r.None?
      ensures url != "" && NormalizeUrl(url) in urls ==> r == Some(urls[NormalizeUrl(url)])
      ensures url != "" && NormalizeUrl(url) !in urls && url in shortened && NormalizeUrl(shortened[url]) in urls ==>
        r == Some(urls[NormalizeUrl(shortened[url])])
      ensures r.Some? ==> r.value in urls.Values || r.value in domains.Values
      ensures r.None? && url != "" ==>
        && NormalizeUrl(url) !in urls
        && (url in shortened ==> NormalizeUrl(shortened[url]) !in urls)
        && (DomainOf(NormalizeUrl(url)) == "" || DomainOf(NormalizeUrl(url)) !in domains)
    {
      if url == "" then None
      else
        var key := NormalizeUrl(url);
        var domain := DomainOf(key);
        if key in urls then Some(urls[key])
        else if url in shortened && NormalizeUrl(shortened[url]) in urls then Some(urls[NormalizeUrl(shortened[url])])
        else if domain != "" && domain in domains then Some(domains[domain])
        else None
    }

    /** `add_url`: the entry is filed under the normalised URL, so a lookup of the same URL
        returns it; nothing for the empty URL. */
    method AddUrl(url: string, reason: string, threatTypes: seq<string>, severity: int, source: string, now: int)
      modifies this`urls
      ensures url == "" ==> urls == old(urls)
      ensures url != "" ==> urls == old(urls)[NormalizeUrl(url) := Entry(NormalizeUrl(url), reason, threatTypes, severity, source, Some(now), Some(now))]
      ensures url != "" ==> Lookup(url) == Some(Entry(NormalizeUrl(url), reason, threatTypes, severity, source, Some(now), Some(now)))
      ensures domains == old(domains) && shortened == old(shortened)
    {
      if url == "" {
        return;
      }
      var key := NormalizeUrl(url);
      var e := Entry(key, reason, threatTypes, severity, source, Some(now), Some(now));
      urls := urls[key := e];
      assert key in urls && urls[key] == e;
    }

    /** `add_domain`: filed under the lower-cased, stripped host without "www.". */
    method AddDomain(domain: string, reason: string, threatTypes: seq<string>, severity: int, source: string, now: int)
      modifies this`domains
      ensures domain == "" ==> domains == old(domains)
      ensures domain != "" ==> domains == old(domains)[NormalizeDomain(domain) := Entry(NormalizeDomain(domain), reason, threatTypes, severity, source, Some(now), Some(now))]
      ensures urls == old(urls) && shortened == old(shortened)
    {
      if domain == "" {
        return;
      }
      var key := NormalizeDomain(domain);
      domains := domains[key := Entry(key, reason, threatTypes, severity, source, Some(now), Some(now))];
    }

    /** `add_shortened_url`: records short → final unless either is empty or they are equal. */
    method AddShortened(short: string, final: string)
      modifies this`shortened
      ensures short == "" || final == "" || short == final ==> shortened == old(shortened)
      ensures short != "" && final != "" && short != final ==> shortened == old(shortened)[short := final]
      ensures urls == old(urls) && domains == old(domains)
    {
      if short == "" || final == "" || short == final {
        return;
      }
      shortened := shortened[short := final];
    }

    /** `add_unsafe_result`: an unsafe report files the URL, with the report's threat types,
        severity and message (or their defaults) and its source; an original URL that differs is
        recorded as a short link to it. */
    method AddUnsafeResult(url: string, report: SafetyReport, original: Option<string>, source: string, now: int)
      modifies this`urls, this`shortened
      ensures url == "" || !report.isUnsafe ==> urls == old(urls) && shortened == old(shortened)
      ensures url != "" && report.isUnsafe ==>
        var e := Entry(NormalizeUrl(url),
          (if report.message.Some? then report.message.value else DefaultReason) + " (via " + source + ")",
          if report.threatTypes.Some? then report.threatTypes.value else ["UNKNOWN"],
          if report.severity.Some? then report.severity.value else 5, source, Some(now), Some(now));
        && urls == old(urls)[NormalizeUrl(url) := e]
        && Lookup(url) == Some(e)
        && shortened == if original.Some? && original.value != "" && original.value != url
                        then old(shortened)[original.value := url] else old(shortened)
      ensures domains == old(domains)
    {
      if url == "" || !report.isUnsafe {
        return;
      }
      var threats := if report.threatTypes.Some? then report.threatTypes.value else ["UNKNOWN"];
      var severity := if report.severity.Some? then report.severity.value else 5;
      var reason := if report.message.Some? then report.message.value else DefaultReason;
      var e := Entry(NormalizeUrl(url), reason + " (via " + source + ")", threats, severity, source,
                     Some(now), Some(now));
      AddUrl(url, e.reason, threats, severity, source, now);
      if original.Some? && original.value != "" && original.value != url {
        AddShortened(original.value, url);
      }
      assert NormalizeUrl(url) in urls && urls[NormalizeUrl(url)] == e;
    }

    /** `remove_url`: true exactly when the normalised URL was filed; only that entry goes. */
    method RemoveUrl(url: string) returns (removed: bool)
      modifies this`urls
      ensures removed <==> url != "" && NormalizeUrl(url) in old(urls)
      ensures removed ==> urls == old(urls) - {NormalizeUrl(url)}
      ensures !removed ==> urls == old(urls)
      ensures url != "" ==> NormalizeUrl(url) !in urls
      ensures domains == old(domains) && shortened == old(shortened)
    {
      if url == "" {
        return false;
      }
      var key := NormalizeUrl(url);
      if key in urls {
        urls := urls - {key};
        return true;
      }
      return false;
    }

    /** `remove_domain`: true exactly when the normalised host was filed. */
    method RemoveDomain(domain: string) returns (removed: bool)
      modifies this`domains
      ensures removed <==> domain != "" && NormalizeDomain(domain) in old(domains)
      ensures removed ==> domains == old(domains) - {NormalizeDomain(domain)}
      ensures !removed ==> domains == old(domains)
      ensures urls == old(urls) && shortened == old(shortened)
    {
      if domain == "" {
        return false;
      }
      var key := NormalizeDomain(domain);
      if key in domains {
        domains := domains - {key};
        return true;
      }
      return false;
    }

    /** `cleanup_old_entries`: nothing for days ≤ 0; otherwise exactly the records dated before
        now − days, or without a readable date, are removed from both caches. */
    method Cleanup(days: int, now: int)
      modifies this`urls, this`domains
      ensures days <= 0 ==> urls == old(urls) && domains == old(domains)
      ensures days > 0 ==> urls == Survivors(old(urls), now - days * 86400)
      ensures days > 0 ==> domains == Survivors(old(domains), now - days * 86400)
      ensures shortened == old(shortened)
    {
      if days <= 0 {
        return;
      }
      var cutoff := now - days * 86400;
      var doomedUrls := ExpiredKeys(urls, cutoff);
      urls := urls - doomedUrls;
      var doomedDomains := ExpiredKeys(domains, cutoff);
      domains := domains - doomedDomains;
    }
  }

  /** The loop collecting the keys `cleanup_old_entries` removes. */
  method ExpiredKeys(m: map<string, Entry>, cutoff: int) returns (doomed: set<string>)
    ensures m - doomed == Survivors(m, cutoff)
    ensures forall k :: k in doomed <==> k in m && Expired(m[k], cutoff)
  {
    var pending := m.Keys;
    doomed := {};
    while pending != {}
      invariant pending <= m.Keys
      invariant forall k :: k in doomed <==> k in m.Keys - pending && Expired(m[k], cutoff)
      decreases |pending|
    {
      var k :| k in pending;
      if Expired(m[k], cutoff) {
        doomed := doomed + {k};
      }
      pending := pending - {k};
    }
  }

  /** A domain just added is found again by `remove_domain`, since both normalise the same way. */
  method AddThenRemoveDomain(b: Blacklist, domain: string, now: int) returns (removed: bool)
    modifies b
    ensures removed <==> domain != ""
    ensures b.domains == old(b.domains) - {NormalizeDomain(domain)} || domain == ""
  {
    b.AddDomain(domain, "manual", [], 5, "manual", now);
    removed := b.RemoveDomain(domain);
  }
}
