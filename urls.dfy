/** The part of the WHATWG URL parser that the migration script uses:
    `new URL(url).pathname`, which throws on a string that is not a URL.
    Simplified to absolute `http`/`https` URLs (the only ones a sitemap lists). */
module Urls {
  import opened Wrappers
  import opened Text

  /** The `TypeError: Invalid URL` that `new URL` throws. */
  datatype UrlError = InvalidUrl(url: string)

  /** A C0 control or a space: what the parser strips from both ends of its
      input, and what never occurs in a host. */
  predicate IsC0OrSpace(c: char) {
    c <= ' '
  }

  /** An ASCII tab or newline: what the parser removes from anywhere in its input. */
  predicate IsTabOrNewline(c: char) {
    c == '\t' || c == '\n' || c == '\r'
  }

  /** Text free of C0 controls and spaces, which the preprocessing leaves alone. */
  predicate Printable(s: string) {
    forall c :: c in s ==> !IsC0OrSpace(c)
  }

  /** The input with its leading C0 controls and spaces removed. */
  function TrimStart(s: string): (r: string)
    ensures |r| <= |s|
  {
    if |s| > 0 && IsC0OrSpace(s[0]) then TrimStart(s[1..]) else s
  }

  /** The input with its trailing C0 controls and spaces removed. */
  function TrimEnd(s: string): (r: string)
    ensures |r| <= |s|
  {
    if |s| > 0 && IsC0OrSpace(s[|s| - 1]) then TrimEnd(s[..|s| - 1]) else s
  }

  /** The input with every tab and newline removed. */
  function RemoveTabsAndNewlines(s: string): (r: string)
    ensures |r| <= |s|
  {
    if |s| == 0 then []
    else (if IsTabOrNewline(s[0]) then [] else [s[0]]) + RemoveTabsAndNewlines(s[1..])
  }

  /** The preprocessing of the URL parser: strip leading and trailing C0
      controls and spaces, then remove every tab and newline. */
  function Cleaned(url: string): string {
    RemoveTabsAndNewlines(TrimEnd(TrimStart(url)))
  }

  /** Text without tabs and newlines loses nothing. */
  lemma {:induction false} RemoveNothing(s: string)
    requires forall c :: c in s ==> !IsTabOrNewline(c)
    ensures RemoveTabsAndNewlines(s) == s
  {
    if |s| > 0 {
      assert s[0] in s;
      RemoveNothing(s[1..]);
    }
  }

  /** What the preprocessing keeps has no tab or newline. */
  lemma {:induction false} NoTabsRemain(s: string)
    ensures forall c :: c in RemoveTabsAndNewlines(s) ==> !IsTabOrNewline(c)
  {
    if |s| > 0 {
      NoTabsRemain(s[1..]);
    }
  }

  /** Length of the `http:` or `https:` scheme (in any case) with its colon, if present. */
  function SchemeLength(input: string): (r: Option<nat>)
    ensures r.Some? ==> r.value <= |input|
  {
    if |input| >= 5 && Lower(input[..5]) == "http:" then Some(5)
    else if |input| >= 6 && Lower(input[..6]) == "https:" then Some(6)
    else None
  }

  /** The number of slashes at the start of `s`; after a special scheme the
      parser skips any number of them, none included, before the host. */
  function LeadingSlashes(s: string): (n: nat)
    ensures n <= |s|
    ensures forall i :: 0 <= i < n ==> s[i] == '/'
    ensures n < |s| ==> s[n] != '/'
  {
    if |s| > 0 && s[0] == '/' then 1 + LeadingSlashes(s[1..]) else 0
  }

  /** Length of the longest prefix of `s` free of the characters in `stops`. */
  function SpanUntil(s: string, stops: set<char>): (n: nat)
    ensures n <= |s|
    ensures forall i :: 0 <= i < n ==> s[i] !in stops
    ensures n < |s| ==> s[n] in stops
  {
    SpanFrom(s, stops, 0)
  }

  /** The first index at or after `i` holding a character of `stops`, or `|s|`. */
  function SpanFrom(s: string, stops: set<char>, i: nat): (n: nat)
    requires i <= |s|
    requires forall k :: 0 <= k < i ==> s[k] !in stops
    ensures i <= n <= |s|
    ensures forall k :: 0 <= k < n ==> s[k] !in stops
    ensures n < |s| ==> s[n] in stops
    decreases |s| - i
  {
    if i == |s| || s[i] in stops then i else SpanFrom(s, stops, i + 1)
  }

  /** A character `new URL` refuses in a host: a C0 control, a space, or one
      of `<`, `>`, `^`, `|` and DEL. */
  predicate ForbiddenInHost(c: char) {
    IsC0OrSpace(c) || c in {'<', '>', '^', '|'} || c as int == 0x7F
  }

  /** A host: non-empty, free of the characters that end the authority and of
      the characters the parser refuses. */
  predicate IsHost(h: string) {
    |h| > 0 && forall i :: 0 <= i < |h| ==> h[i] !in {'/', '?', '#'} && !ForbiddenInHost(h[i])
  }

  /** A character the parser copies into a path unchanged: printable ASCII
      other than `"`, `<`, `>`, `^`, `` ` ``, `{` and `}`, which it
      percent-encodes, and the backslash, which it reads as a slash. */
  predicate PathChar(c: char) {
    '!' <= c <= '~' && c !in {'"', '<', '>', '^', '`', '{', '}', '\\'}
  }

  /** A single-dot or double-dot path segment, in any of its spellings. */
  predicate IsDotSegment(segment: string) {
    var n := |segment|;
    || segment == "."
    || segment == ".."
    || IsEncodedDot(segment)
    || (n == 4 && segment[0] == '.' && IsEncodedDot(segment[1..]))
    || (n == 4 && segment[3] == '.' && IsEncodedDot(segment[..3]))
    || (n == 6 && IsEncodedDot(segment[..3]) && IsEncodedDot(segment[3..]))
  }

  /** `%2e` in either case: a dot, percent-encoded. */
  predicate IsEncodedDot(s: string) {
    |s| == 3 && s[0] == '%' && s[1] == '2' && (s[2] == 'e' || s[2] == 'E')
  }

  /** No `/`-separated segment of the text is a dot segment. */
  predicate NoDotSegments(s: string)
    decreases |s|
  {
    var n := SpanUntil(s, {'/'});
    !IsDotSegment(s[..n]) && (n == |s| || NoDotSegments(s[n + 1..]))
  }

  /** A path the parser keeps as it is: no character it encodes or rewrites,
      and no segment it resolves away. */
  predicate PathSafe(p: string) {
    |p| > 0 && (forall c :: c in p ==> PathChar(c)) && NoDotSegments(p[1..])
  }

  /** A trailing `/` adds an empty segment, which is no dot segment. */
  lemma {:induction false} NoDotSegmentsSlash(s: string)
    requires NoDotSegments(s)
    ensures NoDotSegments(s + "/")
    decreases |s|
  {
    var n := SpanUntil(s, {'/'});
    var t := s + "/";
    SpanUntilExact(t, n, {'/'});
    assert t[..n] == s[..n];
    if n < |s| {
      assert t[n + 1..] == s[n + 1..] + "/";
      NoDotSegmentsSlash(s[n + 1..]);
    } else {
      assert t[n + 1..] == "";
    }
  }

  /** A safe path stays safe with a trailing slash. */
  lemma PathSafeSlash(p: string)
    requires PathSafe(p)
    ensures PathSafe(p + "/")
  {
    assert (p + "/")[1..] == p[1..] + "/";
    NoDotSegmentsSlash(p[1..]);
  }

  /** An absolute path as it appears in a URL: a `/` followed by anything but
      the characters that start a query or a fragment. */
  predicate IsPath(p: string) {
    |p| > 0 && p[0] == '/' && forall i :: 0 <= i < |p| ==> p[i] !in {'?', '#'}
  }

  /** `new URL(url).pathname`: after the preprocessing, the path between the
      authority and any query or fragment, `/` when that is empty; an error
      when the input is not an http(s) URL with a valid host. */
  function Pathname(url: string): (r: Result<string, UrlError>)
    ensures r.Ok? ==> IsPath(r.value)
    ensures r.Err? ==> r.error == InvalidUrl(url)
  {
    match PathOf(Cleaned(url))
    case None => Err(InvalidUrl(url))
    case Some(path) => Ok(path)
  }

  /** The pathname of a preprocessed input: the scheme, any number of
      slashes, then what `PathAfterScheme` reads. */
  function PathOf(input: string): (r: Option<string>)
    ensures r.Some? ==> IsPath(r.value)
  {
    match SchemeLength(input)
    case None => None
    case Some(n) =>
      var afterScheme := input[n..];
      PathAfterScheme(afterScheme[LeadingSlashes(afterScheme)..])
  }

  /** The pathname read from what follows the scheme and its slashes: a valid
      host, then the path up to the query or fragment. */
  function PathAfterScheme(rest: string): (r: Option<string>)
    ensures r.Some? ==> IsPath(r.value)
  {
    var hostLength := SpanUntil(rest, {'/', '?', '#'});
    if !IsHost(rest[..hostLength]) then None
    else
      var tail := rest[hostLength..];
      var path := tail[..SpanUntil(tail, {'?', '#'})];
      assert path != "" ==> path[0] == tail[0] == '/';
      Some(if path == "" then "/" else path)
  }

  lemma SpanUntilExact(s: string, n: nat, stops: set<char>)
    requires n <= |s|
    requires forall i :: 0 <= i < n ==> s[i] !in stops
    requires n < |s| ==> s[n] in stops
    ensures SpanUntil(s, stops) == n
  {
    var m := SpanUntil(s, stops);
    assert !(m < n) && !(n < m);
  }

  /** A valid host is printable. */
  lemma HostPrintable(host: string)
    requires IsHost(host)
    ensures Printable(host)
  {
    forall c | c in host
      ensures !IsC0OrSpace(c)
    {
      var i :| 0 <= i < |host| && host[i] == c;
    }
  }

  /** The preprocessing leaves alone an input without tabs or newlines whose
      ends are neither controls nor spaces. */
  lemma CleanedUnchanged(u: string)
    requires forall c :: c in u ==> !IsTabOrNewline(c)
    requires |u| > 0 ==> !IsC0OrSpace(u[0]) && !IsC0OrSpace(u[|u| - 1])
    ensures Cleaned(u) == u
  {
    assert TrimStart(u) == u;
    assert TrimEnd(u) == u;
    RemoveNothing(u);
  }

  /** The preprocessing leaves printable text alone. */
  lemma CleanedPrintable(u: string)
    requires Printable(u)
    ensures Cleaned(u) == u
  {
    if |u| > 0 {
      assert u[0] in u && u[|u| - 1] in u;
    }
    CleanedUnchanged(u);
  }

  /** Leading C0 controls and spaces are stripped. */
  lemma {:induction false} TrimStartPadding(before: string, v: string)
    requires forall c :: c in before ==> IsC0OrSpace(c)
    requires |v| > 0 && !IsC0OrSpace(v[0])
    ensures TrimStart(before + v) == v
  {
    if |before| == 0 {
      assert before + v == v;
    } else {
      assert before[0] in before;
      assert (before + v)[1..] == before[1..] + v;
      TrimStartPadding(before[1..], v);
    }
  }

  /** Trailing C0 controls and spaces are stripped. */
  lemma {:induction false} TrimEndPadding(v: string, after: string)
    requires forall c :: c in after ==> IsC0OrSpace(c)
    requires |v| > 0 && !IsC0OrSpace(v[|v| - 1])
    ensures TrimEnd(v + after) == v
  {
    if |after| == 0 {
      assert v + after == v;
    } else {
      assert after[|after| - 1] in after;
      assert (v + after)[..|v + after| - 1] == v + after[..|after| - 1];
      TrimEndPadding(v, after[..|after| - 1]);
    }
  }

  /** C0 controls and spaces around a URL do not change what is parsed. */
  lemma CleanedIgnoresPadding(before: string, url: string, after: string)
    requires forall c :: c in before ==> IsC0OrSpace(c)
    requires forall c :: c in after ==> IsC0OrSpace(c)
    requires |url| > 0 && !IsC0OrSpace(url[0]) && !IsC0OrSpace(url[|url| - 1])
    ensures Cleaned(before + url + after) == Cleaned(url)
  {
    TrimStartPadding(before, url + after);
    assert before + url + after == before + (url + after);
    TrimEndPadding(url, after);
    assert TrimStart(url) == url;
    assert TrimEnd(url) == url;
  }

  /** `k` slashes. */
  function Slashes(k: nat): (r: string)
    ensures |r| == k && forall c :: c in r ==> c == '/'
  {
    seq(k, i => '/')
  }

  /** The slashes counted at the start of `k` slashes and a host. */
  lemma {:induction false} LeadingSlashesOf(k: nat, rest: string)
    requires |rest| > 0 && rest[0] != '/'
    ensures LeadingSlashes(Slashes(k) + rest) == k
  {
    if k > 0 {
      assert (Slashes(k) + rest)[0] == '/';
      assert (Slashes(k) + rest)[1..] == Slashes(k - 1) + rest;
      LeadingSlashesOf(k - 1, rest);
    }
  }

  /** The `https:` scheme is recognised, and any number of slashes after it
      skipped, whatever host follows. */
  lemma HttpsPrefix(k: nat, rest: string)
    requires |rest| > 0 && rest[0] != '/'
    ensures PathOf("https:" + Slashes(k) + rest) == PathAfterScheme(rest)
  {
    var u := "https:" + Slashes(k) + rest;
    assert u[..5] == "https";
    assert Lower("https") != "http:" by {
      assert Lower("https")[4] == 's';
    }
    assert u[..6] == "https:";
    assert Lower("https:") == "https:";
    var afterScheme := u[6..];
    assert afterScheme == Slashes(k) + rest;
    LeadingSlashesOf(k, rest);
    assert afterScheme[k..] == rest;
  }

  /** After a host, the pathname is read off what follows the host. */
  lemma PathAfterHost(host: string, rest: string)
    requires IsHost(host)
    requires |rest| > 0 ==> rest[0] in {'/', '?', '#'}
    ensures PathAfterScheme(host + rest) ==
      var path := rest[..SpanUntil(rest, {'?', '#'})];
      Some(if path == "" then "/" else path)
  {
    SpanUntilExact(host + rest, |host|, {'/', '?', '#'});
    assert (host + rest)[..|host|] == host;
    assert (host + rest)[|host|..] == rest;
  }

  /** The path read after `https:`, any number of slashes and a host. */
  lemma PathOfParts(k: nat, host: string, path: string)
    requires IsHost(host) && IsPath(path)
    ensures PathOf("https:" + Slashes(k) + (host + path)) == Some(path)
  {
    HttpsPrefix(k, host + path);
    PathAfterHost(host, path);
    SpanUntilExact(path, |path|, {'?', '#'});
    assert path[..|path|] == path;
  }

  /** Printable parts make a printable URL. */
  lemma PartsPrintable(k: nat, host: string, path: string)
    requires IsHost(host) && Printable(path)
    ensures Printable("https:" + Slashes(k) + (host + path))
  {
    HostPrintable(host);
  }

  /** Parsing inverts building: the pathname of `https://<host><path>` is
      `<path>`, for a path the parser keeps as it is. */
  lemma PathnameOfParts(host: string, path: string)
    requires IsHost(host) && IsPath(path) && PathSafe(path)
    ensures Pathname("https://" + (host + path)) == Ok(path)
  {
    PathnameOfSlashes(2, host, path);
    assert "https:" + Slashes(2) == "https://";
  }

  /** Like `new URL`, the parser takes any number of slashes after `https:`,
      none included: `https:host/x` and `https:///host/x` are `https://host/x`. */
  lemma PathnameOfSlashes(k: nat, host: string, path: string)
    requires IsHost(host) && IsPath(path) && PathSafe(path)
    ensures Pathname("https:" + Slashes(k) + (host + path)) == Ok(path)
  {
    var u := "https:" + Slashes(k) + (host + path);
    PartsPrintable(k, host, path);
    CleanedPrintable(u);
    PathOfParts(k, host, path);
  }

  /** A `<loc>` whose URL is surrounded by whitespace or newlines, as a
      pretty-printed sitemap has it, parses as the URL itself. */
  lemma PathnameIgnoresPadding(before: string, host: string, path: string, after: string)
    requires forall c :: c in before ==> IsC0OrSpace(c)
    requires forall c :: c in after ==> IsC0OrSpace(c)
    requires IsHost(host) && IsPath(path) && PathSafe(path)
    ensures Pathname(before + ("https://" + (host + path)) + after) == Ok(path)
  {
    var u := "https://" + (host + path);
    PathnameOfParts(host, path);
    assert u[0] == 'h';
    assert u[|u| - 1] == path[|path| - 1] && path[|path| - 1] in path;
    PathnameOfPadded(before, u, after);
  }

  /** Padding around a URL changes nothing but the text a throw reports. */
  lemma PathnameOfPadded(before: string, url: string, after: string)
    requires forall c :: c in before ==> IsC0OrSpace(c)
    requires forall c :: c in after ==> IsC0OrSpace(c)
    requires |url| > 0 && !IsC0OrSpace(url[0]) && !IsC0OrSpace(url[|url| - 1])
    ensures Pathname(before + url + after) ==
      if Pathname(url).Ok? then Pathname(url) else Err(InvalidUrl(before + url + after))
  {
    CleanedIgnoresPadding(before, url, after);
  }

  /** The pathname of an input the preprocessing leaves alone is read off
      the input itself. */
  lemma PathnameOfCleaned(u: string)
    requires Cleaned(u) == u
    ensures Pathname(u) == if PathOf(u).Some? then Ok(PathOf(u).value) else Err(InvalidUrl(u))
  {
  }

  /** The path read after `https://`, a host, a path and a query. */
  lemma PathOfQuery(host: string, path: string, query: string)
    requires IsHost(host) && IsPath(path)
    ensures PathOf("https:" + Slashes(2) + (host + (path + "?" + query))) == Some(path)
  {
    var withQuery := path + "?" + query;
    HttpsPrefix(2, host + withQuery);
    PathAfterHost(host, withQuery);
    SpanUntilExact(withQuery, |path|, {'?', '#'});
    assert withQuery[..|path|] == path;
  }

  /** A query string after the path does not change the pathname. */
  lemma PathnameIgnoresQuery(host: string, path: string, query: string)
    requires IsHost(host) && IsPath(path) && PathSafe(path) && Printable(query)
    ensures Pathname("https://" + (host + (path + "?" + query))) == Ok(path)
  {
    var withQuery := path + "?" + query;
    assert "https://" == "https:" + Slashes(2);
    PartsPrintable(2, host, withQuery);
    CleanedPrintable("https://" + (host + withQuery));
    PathOfQuery(host, path, query);
    PathnameOfCleaned("https://" + (host + withQuery));
  }

  /** A URL consisting of a host alone has the root pathname. */
  lemma PathnameOfBareHost(host: string)
    requires IsHost(host)
    ensures Pathname("https://" + host) == Ok("/")
  {
    assert "https://" == "https:" + Slashes(2);
    PartsPrintable(2, host, "");
    assert host + "" == host;
    CleanedPrintable("https://" + host);
    HttpsPrefix(2, host);
    PathAfterHost(host, "");
  }

  /** Two hosts joined by a space hold none of the characters that end a host. */
  lemma JoinedHostSpan(a: string, b: string, path: string)
    requires IsHost(a) && IsHost(b) && IsPath(path)
    ensures SpanUntil(a + " " + b + path, {'/', '?', '#'}) == |a| + 1 + |b|
  {
    var host := a + " " + b;
    assert a + " " + b + path == host + path;
    forall i | 0 <= i < |host|
      ensures (host + path)[i] !in {'/', '?', '#'}
    {
      if i < |a| { assert host[i] == a[i]; }
      else if i > |a| { assert host[i] == b[i - |a| - 1]; }
    }
    SpanUntilExact(host + path, |host|, {'/', '?', '#'});
  }

  /** No host is read when it holds a space. */
  lemma PathOfSpaceInHost(a: string, b: string, path: string)
    requires IsHost(a) && IsHost(b) && IsPath(path)
    ensures PathOf("https:" + Slashes(2) + (a + " " + b + path)).None?
  {
    var rest := a + " " + b + path;
    HttpsPrefix(2, rest);
    JoinedHostSpan(a, b, path);
    assert rest[..|a| + 1 + |b|][|a|] == ' ';
  }

  /** A space inside the host makes `new URL` throw. */
  lemma SpaceInHostRefused(a: string, b: string, path: string)
    requires IsHost(a) && IsHost(b) && IsPath(path) && Printable(path)
    ensures Pathname("https://" + (a + " " + b + path)).Err?
  {
    var u := "https://" + (a + " " + b + path);
    HostPrintable(a);
    HostPrintable(b);
    assert forall c :: c in u ==> !IsTabOrNewline(c);
    assert u[|u| - 1] == path[|path| - 1] && path[|path| - 1] in path;
    CleanedUnchanged(u);
    assert "https://" == "https:" + Slashes(2);
    PathOfSpaceInHost(a, b, path);
    PathnameOfCleaned(u);
  }
}
