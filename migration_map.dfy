/** The pure stages of the sitemap-to-redirect migration script
    (scripts/generate-migration-map.js): the keyword classifier
    `categorizeUrl`, the rule builder `generateRedirect`, and the projection
    `extractUrls` of a parsed sitemap document into typed entries. */
module MigrationMap {
  import opened Wrappers
  import opened Text
  import opened Urls
  import Collections

  /** The origin whose sitemaps are crawled. */
  const SiteUrl: string := "https://aitooladvisor.com"

  /** The categories the classifier assigns; `All` is the general fallback. */
  datatype Category = Writing | Design | VibeCoding | Productivity | All {
    /** The string the script uses for the category. */
    function Name(): (s: string)
      ensures s != "" && IsLower(s)
    {
      match this
      case Writing => "writing"
      case Design => "design"
      case VibeCoding => "vibe-coding"
      case Productivity => "productivity"
      case All => "all"
    }
  }

  const WritingKeywords: seq<string> := ["writing", "copy", "content", "blog", "seo", "article"]
  const DesignKeywords: seq<string> := ["design", "video", "image", "graphic", "art", "photo"]
  const CodingKeywords: seq<string> := ["coding", "dev", "code", "program", "software", "app", "web", "build"]
  const ProductivityKeywords: seq<string> := ["product", "tool", "automat", "workflow"]

  /** `text.includes(k1) || text.includes(k2) || ...`, tested left to right. */
  predicate MentionsAny(text: string, keywords: seq<string>) {
    |keywords| > 0 && (Contains(text, keywords[0]) || MentionsAny(text, keywords[1..]))
  }

  /** A text that includes one of the keywords mentions the list. */
  lemma {:induction false} MentionsKeyword(text: string, keywords: seq<string>, k: string)
    requires k in keywords && Contains(text, k)
    ensures MentionsAny(text, keywords)
  {
    if keywords[0] != k {
      MentionsKeyword(text, keywords[1..], k);
    }
  }

  /** The chain of keyword tests of `categorizeUrl`, applied to the lower-cased
      URL; the first keyword set that matches decides. */
  function Classify(urlLower: string): Category {
    if MentionsAny(urlLower, WritingKeywords) then Writing
    else if MentionsAny(urlLower, DesignKeywords) then Design
    else if MentionsAny(urlLower, CodingKeywords) then VibeCoding
    else if MentionsAny(urlLower, ProductivityKeywords) then Productivity
    else All
  }

  /** The same precedence as a table of (category, keywords) rules. */
  const Rules: seq<(Category, seq<string>)> := [
    (Writing, WritingKeywords),
    (Design, DesignKeywords),
    (VibeCoding, CodingKeywords),
    (Productivity, ProductivityKeywords)
  ]

  /** Reference classifier: the category of the first rule whose keywords occur
      in `text`, `All` when none does. */
  function FirstMatchingRule(text: string): Category {
    match Collections.FindIndex(Rules, (rule: (Category, seq<string>)) => MentionsAny(text, rule.1))
    case None => All
    case Some(i) => Rules[i].0
  }

  /** The if-chain of `categorizeUrl` is the first-match evaluation of the rule
      table, so `Classify(t)` is rule i's category exactly when rule i matches
      and no earlier rule does, and `All` exactly when no rule matches. */
  lemma ClassifyIsFirstMatch(text: string)
    ensures Classify(text) == FirstMatchingRule(text)
    ensures forall i :: 0 <= i < |Rules| ==>
      (Classify(text) == Rules[i].0 <==>
        MentionsAny(text, Rules[i].1) && forall j :: 0 <= j < i ==> !MentionsAny(text, Rules[j].1))
    ensures Classify(text) == All <==> forall i :: 0 <= i < |Rules| ==> !MentionsAny(text, Rules[i].1)
  {
    var p := (rule: (Category, seq<string>)) => MentionsAny(text, rule.1);
    assert p(Rules[0]) == MentionsAny(text, WritingKeywords);
    assert p(Rules[1]) == MentionsAny(text, DesignKeywords);
    assert p(Rules[2]) == MentionsAny(text, CodingKeywords);
    assert p(Rules[3]) == MentionsAny(text, ProductivityKeywords);
  }

  /** `categorizeUrl(url)`: `Err` where `new URL` throws, `None` (null) for the
      root path, otherwise the category of the lower-cased whole URL. */
  function Categorize(url: string): (r: Result<Option<Category>, UrlError>)
    ensures r.Err? <==> Pathname(url).Err?
    ensures r == Ok(None) <==> Pathname(url).Ok? && Pathname(url).value in {"/", ""}
    ensures r.Ok? && r.value.Some? ==> r.value.value == Classify(Lower(url))
  {
    var urlLower := Lower(url);
    match Pathname(url)
    case Err(e) => Err(e)
    case Ok(pathname) =>
      if pathname == "/" || pathname == "" then Ok(None) else Ok(Some(Classify(urlLower)))
  }

  /** Matching ignores case: a keyword written in any case anywhere in the URL
      counts as an occurrence of the keyword. */
  lemma MatchIgnoresCase(url: string, fragment: string, keywords: seq<string>)
    requires Contains(url, fragment)
    requires Lower(fragment) in keywords
    ensures MentionsAny(Lower(url), keywords)
  {
    ContainsLower(url, fragment);
    MentionsKeyword(Lower(url), keywords, Lower(fragment));
  }

  /** Precedence: a non-root URL that mentions a writing keyword is `writing`,
      whatever design, coding or productivity keywords it also mentions. */
  lemma WritingTakesPrecedence(url: string, fragment: string)
    requires Pathname(url).Ok? && Pathname(url).value != "/"
    requires Contains(url, fragment) && Lower(fragment) in WritingKeywords
    ensures Categorize(url) == Ok(Some(Writing))
  {
    MatchIgnoresCase(url, fragment, WritingKeywords);
  }

  /** Matching runs on the whole URL, host included: the site's own host
      contains `tool`, so no URL on it ever falls back to `all`. */
  lemma SiteUrlsNeverFallBack(url: string)
    requires |SiteUrl| <= |url| && url[..|SiteUrl|] == SiteUrl
    ensures Categorize(url) != Ok(Some(All))
  {
    SiteUrlsMentionTool(url);
  }

  /** The lower-cased URL of a page on the site includes the productivity
      keyword `tool`, at the host. */
  lemma {:induction false} SiteUrlsMentionTool(url: string)
    requires |SiteUrl| <= |url| && url[..|SiteUrl|] == SiteUrl
    ensures MentionsAny(Lower(url), ProductivityKeywords)
  {
    var lower := Lower(url);
    assert url[10..14] == SiteUrl[10..14] == "tool";
    assert lower[10..14] == Lower(url[10..14]);
    assert Lower("tool") == "tool";
    assert OccursAt(lower, "tool", 10);
    assert "tool" in ProductivityKeywords;
    MentionsKeyword(lower, ProductivityKeywords, "tool");
  }

  /** A permanent redirect rule. */
  datatype Redirect = Redirect(source: string, destination: string, permanent: bool)

  /** JavaScript truthiness of an optional string category (`null` and `''` are falsy). */
  predicate Truthy(category: Option<string>) {
    category.Some? && category.value != ""
  }

  /** The landing destination for a category. */
  function Destination(category: Option<string>): string {
    if Truthy(category) then "/?category=" + category.value + "&ref=migration" else "/?ref=migration"
  }

  /** The text between `/?category=` and `&ref=migration` in a destination of
      the two shapes above. For a category without `&`, `#`, `%` or `+`, such
      as the five category names, this is the value the landing page's
      `searchParams.get('category')` returns; the query-string decoding that
      other categories would go through is not modelled. */
  function CategoryParam(destination: string): Option<string> {
    var prefix, suffix := "/?category=", "&ref=migration";
    if |prefix| + |suffix| <= |destination|
      && destination[..|prefix|] == prefix
      && destination[|destination| - |suffix|..] == suffix
    then Some(destination[|prefix|..|destination| - |suffix|])
    else None
  }

  /** The destination carries the category the rule was built with between
      its fixed prefix and suffix; a falsy category yields a destination
      without a category parameter. */
  lemma DestinationRoundTrip(category: Option<string>)
    ensures CategoryParam(Destination(category)) == if Truthy(category) then category else None
  {
    var d := Destination(category);
    if Truthy(category) {
      var c := category.value;
      assert d[..11] == "/?category=";
      assert d[|d| - 14..] == "&ref=migration";
      assert d[11..|d| - 14] == c;
    } else {
      assert d == "/?ref=migration";
      assert d[..11] != "/?category=" by {
        assert d[2] != "/?category="[2];
      }
    }
  }

  /** The pathname with one trailing slash removed, unless it is the root. */
  function TrimTrailingSlash(pathname: string): (source: string)
    ensures IsPath(pathname) ==> IsPath(source) && (source == "/" <==> pathname in {"/", "//"})
    ensures |pathname| > 0 && pathname[|pathname| - 1] == '/' && pathname != "/" ==> source + "/" == pathname
    ensures |pathname| > 0 && pathname[|pathname| - 1] != '/' ==> source == pathname
  {
    if |pathname| > 0 && pathname[|pathname| - 1] == '/' && pathname != "/"
    then
      var source := pathname[..|pathname| - 1];
      assert pathname == source + "/";
      assert source == "/" ==> pathname == "//";
      source
    else pathname
  }

  /** `generateRedirect(url, category)`: `Err` where `new URL` throws, `None`
      (null) when the trimmed source is empty or `/`, otherwise a permanent rule
      from the trimmed pathname to the category's destination. */
  function GenerateRedirect(url: string, category: Option<string>): (r: Result<Option<Redirect>, UrlError>)
    ensures r.Err? <==> Pathname(url).Err?
    ensures r.Ok? ==> (r.value.None? <==> Pathname(url).value in {"/", "//"})
    ensures r.Ok? && r.value.Some? ==>
      var rule := r.value.value;
      var pathname := Pathname(url).value;
      rule.permanent && IsPath(rule.source) && rule.source != "/" &&
      (pathname[|pathname| - 1] == '/' ==> rule.source + "/" == pathname) &&
      (pathname[|pathname| - 1] != '/' ==> rule.source == pathname) &&
      CategoryParam(rule.destination) == (if Truthy(category) then category else None) &&
      (!Truthy(category) ==> rule.destination == "/?ref=migration")
  {
    match Pathname(url)
    case Err(e) => Err(e)
    case Ok(pathname) =>
      var source := TrimTrailingSlash(pathname);
      if source == "" || source == "/" then Ok(None)
      else
        DestinationRoundTrip(category);
        Ok(Some(Redirect(source, Destination(category), true)))
  }

  /** Trailing-slash normalisation: `<path>` and `<path>/` give the same rule. */
  lemma TrailingSlashNormalised(host: string, path: string, category: Option<string>)
    requires IsHost(host) && IsPath(path) && PathSafe(path) && path[|path| - 1] != '/'
    ensures GenerateRedirect("https://" + (host + path), category) == Ok(Some(Redirect(path, Destination(category), true)))
    ensures GenerateRedirect("https://" + (host + (path + "/")), category) == Ok(Some(Redirect(path, Destination(category), true)))
  {
    assert (path + "/")[..|path|] == path;
    PathSafeSlash(path);
    RedirectOfPath(host, path, category);
    RedirectOfPath(host, path + "/", category);
  }

  /** The rule for a URL with an explicit path maps the trimmed path. */
  lemma RedirectOfPath(host: string, path: string, category: Option<string>)
    requires IsHost(host) && IsPath(path) && PathSafe(path) && path != "/" && path != "//"
    ensures GenerateRedirect("https://" + (host + path), category) ==
      Ok(Some(Redirect(TrimTrailingSlash(path), Destination(category), true)))
  {
    PathnameOfParts(host, path);
  }

  /** Root exclusion: a bare origin is never a redirect source. */
  lemma RootIsNeverRedirected(host: string, category: Option<string>)
    requires IsHost(host)
    ensures Categorize("https://" + host) == Ok(None)
    ensures GenerateRedirect("https://" + host, category) == Ok(None)
  {
    PathnameOfBareHost(host);
  }

  /** An entry of a parsed sitemap: `sitemap` in an index, `url` in a urlset;
      xml2js gives its `loc` child as an optional list of strings. */
  datatype Entry = Entry(loc: Option<seq<string>>)

  datatype SitemapIndex = SitemapIndex(sitemap: Option<seq<Entry>>)

  datatype UrlSet = UrlSet(url: Option<seq<Entry>>)

  /** The xml2js result for one document: either recognised root, or both, or neither. */
  datatype SitemapDocument = SitemapDocument(sitemapindex: Option<SitemapIndex>, urlset: Option<UrlSet>)

  /** A typed reference extracted from a document. */
  datatype UrlRef = SitemapRef(url: string) | PageRef(url: string)

  /** `entry.loc && entry.loc[0]`: a loc list whose first string is non-empty. */
  predicate HasLoc(entry: Entry) {
    entry.loc.Some? && |entry.loc.value| > 0 && entry.loc.value[0] != ""
  }

  /** The entries under `sitemapindex.sitemap`, empty when either is absent. */
  function IndexEntries(doc: SitemapDocument): seq<Entry> {
    if doc.sitemapindex.Some? && doc.sitemapindex.value.sitemap.Some?
    then doc.sitemapindex.value.sitemap.value else []
  }

  /** The entries under `urlset.url`, empty when either is absent. */
  function UrlEntries(doc: SitemapDocument): seq<Entry> {
    if doc.urlset.Some? && doc.urlset.value.url.Some? then doc.urlset.value.url.value else []
  }

  /** The references a list of entries contributes, in document order,
      each of the given kind; entries without a loc contribute nothing. */
  function Refs(entries: seq<Entry>, asSitemap: bool): (r: seq<UrlRef>)
    ensures |r| <= |entries|
    ensures forall k :: 0 <= k < |r| ==> r[k].SitemapRef? == asSitemap
  {
    if |entries| == 0 then []
    else
      var last := entries[|entries| - 1];
      Refs(entries[..|entries| - 1], asSitemap)
        + if HasLoc(last) then [if asSitemap then SitemapRef(last.loc.value[0]) else PageRef(last.loc.value[0])] else []
  }

  /** Everything `extractUrls` returns for a document. */
  function DocumentRefs(doc: SitemapDocument): seq<UrlRef> {
    Refs(IndexEntries(doc), true) + Refs(UrlEntries(doc), false)
  }

  /** `extractUrls(doc)`: the index's nested sitemaps, then the urlset's pages. */
  method ExtractUrls(doc: SitemapDocument) returns (urls: seq<UrlRef>)
    ensures urls == DocumentRefs(doc)
  {
    urls := [];
    var sitemaps := IndexEntries(doc);
    for i := 0 to |sitemaps|
      invariant urls == Refs(sitemaps[..i], true)
    {
      assert sitemaps[..i + 1][..i] == sitemaps[..i];
      if HasLoc(sitemaps[i]) {
        urls := urls + [SitemapRef(sitemaps[i].loc.value[0])];
      }
    }
    assert sitemaps[..|sitemaps|] == sitemaps;
    var pages := UrlEntries(doc);
    ghost var fromIndex := urls;
    for i := 0 to |pages|
      invariant urls == fromIndex + Refs(pages[..i], false)
    {
      assert pages[..i + 1][..i] == pages[..i];
      if HasLoc(pages[i]) {
        urls := urls + [PageRef(pages[i].loc.value[0])];
      }
    }
    assert pages[..|pages|] == pages;
  }

  /** Index entries come out as `sitemap` references before every `page`
      reference, and a document with neither root yields nothing. */
  lemma ExtractOrder(doc: SitemapDocument)
    ensures forall i, j :: 0 <= i < j < |DocumentRefs(doc)| && DocumentRefs(doc)[j].SitemapRef? ==>
      DocumentRefs(doc)[i].SitemapRef?
    ensures |DocumentRefs(doc)| <= |IndexEntries(doc)| + |UrlEntries(doc)|
    ensures doc.sitemapindex.None? && doc.urlset.None? ==> DocumentRefs(doc) == []
  {
    var a: seq<UrlRef>, b: seq<UrlRef> := Refs(IndexEntries(doc), true), Refs(UrlEntries(doc), false);
    forall i, j | 0 <= i < j < |a + b| && (a + b)[j].SitemapRef?
      ensures (a + b)[i].SitemapRef?
    {
    }
  }

  /** Refs follows document order: the references of a concatenation of entry
      lists are the concatenation of their references. */
  lemma {:induction false} RefsAppend(a: seq<Entry>, b: seq<Entry>, asSitemap: bool)
    ensures Refs(a + b, asSitemap) == Refs(a, asSitemap) + Refs(b, asSitemap)
    decreases |b|
  {
    if |b| == 0 {
      assert a + b == a;
    } else {
      assert (a + b)[..|a + b| - 1] == a + b[..|b| - 1];
      RefsAppend(a, b[..|b| - 1], asSitemap);
    }
  }

  /** A single entry contributes its first loc exactly when it has one. */
  lemma RefsOfOne(entry: Entry, asSitemap: bool)
    ensures |Refs([entry], asSitemap)| == if HasLoc(entry) then 1 else 0
    ensures HasLoc(entry) ==> Refs([entry], asSitemap)[0].url == entry.loc.value[0]
  {
    assert [entry][..0] == [];
  }
}
