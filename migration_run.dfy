/** The driver `main` of scripts/generate-migration-map.js: the crawl over the
    candidate sitemaps with its processed-set guard, the first-seen
    de-duplication of page URLs, and the classify/count/emit loop. */
module MigrationRun {
  import opened Wrappers
  import opened Collections
  import opened Urls
  import opened MigrationMap

  /** The candidate sitemaps, tried in this order. */
  const SitemapUrls: seq<string> := [
    SiteUrl + "/sitemap_index.xml",
    SiteUrl + "/sitemap.xml",
    SiteUrl + "/post-sitemap.xml",
    SiteUrl + "/page-sitemap.xml"
  ]

  /** `fetchSitemap`: the response body of the n-th request of the run
      (`None` where the request fails), given by URL and request ordinal. */
  type Fetcher = (string, nat) -> Option<string>

  /** `parseSitemap`: the xml2js tree of a body, `None` where parsing fails. */
  type Parser = string -> Option<SitemapDocument>

  /** The `if (!xmlData)` test: a failed request or an empty body is no document. */
  predicate Fetched(data: Option<string>) {
    data.Some? && data.value != ""
  }

  /** What the crawl has built so far: the page URLs in discovery order, the
      sitemaps processed (`processedSitemaps`, in insertion order), and the
      URL of every request made, in order. */
  datatype Crawl = Crawl(pages: seq<string>, processed: seq<string>, requests: seq<string>)

  const Start: Crawl := Crawl([], [], [])

  /** `urls.filter(u => u.type === 'page').map(u => u.url)`. */
  function PageUrls(refs: seq<UrlRef>): (r: seq<string>)
    ensures |r| <= |refs|
    ensures forall u :: u in r <==> PageRef(u) in refs
  {
    if |refs| == 0 then []
    else PageUrls(refs[..|refs| - 1]) + match refs[|refs| - 1] {
      case PageRef(u) => [u]
      case SitemapRef(_) => []
    }
  }

  /** The page URLs of a list are those of its parts, in order. */
  lemma {:induction false} PageUrlsAppend(a: seq<UrlRef>, b: seq<UrlRef>)
    ensures PageUrls(a + b) == PageUrls(a) + PageUrls(b)
    decreases |b|
  {
    if |b| > 0 {
      var b' := b[..|b| - 1];
      assert (a + b)[..|a + b| - 1] == a + b';
      PageUrlsAppend(a, b');
    } else {
      assert a + b == a;
    }
  }

  /** A nested sitemap: fetched only if not yet processed, and only its
      `page` entries are kept (nesting stops at one level). */
  function VisitNested(fetch: Fetcher, parse: Parser, st: Crawl, url: string): Crawl {
    if url in st.processed then st
    else
      var data := fetch(url, |st.requests|);
      var st1 := st.(requests := st.requests + [url]);
      if !Fetched(data) then st1
      else
        var st2 := st1.(processed := st1.processed + [url]);
        match parse(data.value)
        case None => st2
        case Some(doc) => st2.(pages := st2.pages + PageUrls(DocumentRefs(doc)))
  }

  /** A nested sitemap costs at most one request, and none once processed; a
      successful fetch marks it processed; the pages grow by exactly the page
      URLs of its document, whose own sitemap entries are not followed. */
  lemma VisitNestedEffect(fetch: Fetcher, parse: Parser, st: Crawl, url: string)
    ensures var st' := VisitNested(fetch, parse, st, url);
      var data := fetch(url, |st.requests|);
      && (url in st.processed ==> st' == st)
      && (url !in st.processed ==> st'.requests == st.requests + [url])
      && st'.processed == (if url !in st.processed && Fetched(data) then st.processed + [url] else st.processed)
      && st'.pages == st.pages +
        (if url !in st.processed && Fetched(data) && parse(data.value).Some?
         then PageUrls(DocumentRefs(parse(data.value).value))
         else [])
  {
  }

  /** One entry of a top-level document. */
  function VisitEntry(fetch: Fetcher, parse: Parser, st: Crawl, entry: UrlRef): Crawl {
    match entry
    case SitemapRef(u) => VisitNested(fetch, parse, st, u)
    case PageRef(u) => st.(pages := st.pages + [u])
  }

  /** The entries of a top-level document, in order. */
  function VisitEntries(fetch: Fetcher, parse: Parser, st: Crawl, entries: seq<UrlRef>): Crawl {
    if |entries| == 0 then st
    else VisitEntry(fetch, parse, VisitEntries(fetch, parse, st, entries[..|entries| - 1]), entries[|entries| - 1])
  }

  /** One candidate sitemap of the outer loop. */
  function VisitCandidate(fetch: Fetcher, parse: Parser, st: Crawl, url: string): Crawl {
    if url in st.processed then st
    else
      var data := fetch(url, |st.requests|);
      var st1 := st.(requests := st.requests + [url]);
      if !Fetched(data) then st1
      else
        var st2 := st1.(processed := st1.processed + [url]);
        match parse(data.value)
        case None => st2
        case Some(doc) => VisitEntries(fetch, parse, st2, DocumentRefs(doc))
  }

  /** The outer loop over a list of candidates. */
  function VisitCandidates(fetch: Fetcher, parse: Parser, st: Crawl, urls: seq<string>): Crawl {
    if |urls| == 0 then st
    else VisitCandidate(fetch, parse, VisitCandidates(fetch, parse, st, urls[..|urls| - 1]), urls[|urls| - 1])
  }

  /** The whole crawl of a run. */
  function Discover(fetch: Fetcher, parse: Parser): Crawl {
    VisitCandidates(fetch, parse, Start, SitemapUrls)
  }

  /** The crawl loop of `main`. Its log of requests is the console's
      "Fetching" lines. */
  method DiscoverPages(fetch: Fetcher, parse: Parser) returns (pages: seq<string>, processed: seq<string>, requests: seq<string>)
    ensures Crawl(pages, processed, requests) == Discover(fetch, parse)
  {
    pages, processed, requests := [], [], [];
    for c := 0 to |SitemapUrls|
      invariant Crawl(pages, processed, requests) == VisitCandidates(fetch, parse, Start, SitemapUrls[..c])
    {
      assert SitemapUrls[..c + 1][..c] == SitemapUrls[..c];
      var sitemapUrl := SitemapUrls[c];
      assert VisitCandidates(fetch, parse, Start, SitemapUrls[..c + 1]) ==
        VisitCandidate(fetch, parse, Crawl(pages, processed, requests), sitemapUrl);
      if sitemapUrl in processed {
        continue;
      }
      var xmlData := fetch(sitemapUrl, |requests|);
      requests := requests + [sitemapUrl];
      if !Fetched(xmlData) {
        continue;
      }
      processed := processed + [sitemapUrl];
      var parsed := parse(xmlData.value);
      if parsed.None? {
        continue;
      }
      var urls := ExtractUrls(parsed.value);
      pages, processed, requests := ProcessEntries(fetch, parse, pages, processed, requests, urls);
    }
    assert SitemapUrls[..|SitemapUrls|] == SitemapUrls;
  }

  /** The `for (const entry of urls)` loop over one top-level document. */
  method ProcessEntries(fetch: Fetcher, parse: Parser, pages0: seq<string>, processed0: seq<string>,
                        requests0: seq<string>, urls: seq<UrlRef>)
    returns (pages: seq<string>, processed: seq<string>, requests: seq<string>)
    ensures Crawl(pages, processed, requests) == VisitEntries(fetch, parse, Crawl(pages0, processed0, requests0), urls)
  {
    pages, processed, requests := pages0, processed0, requests0;
    for e := 0 to |urls|
      invariant Crawl(pages, processed, requests) == VisitEntries(fetch, parse, Crawl(pages0, processed0, requests0), urls[..e])
    {
      assert urls[..e + 1][..e] == urls[..e];
      match urls[e]
      case SitemapRef(nestedUrl) =>
        if nestedUrl !in processed {
          var nestedXml := fetch(nestedUrl, |requests|);
          requests := requests + [nestedUrl];
          if Fetched(nestedXml) {
            processed := processed + [nestedUrl];
            var nestedParsed := parse(nestedXml.value);
            if nestedParsed.Some? {
              var nestedUrls := ExtractUrls(nestedParsed.value);
              pages := pages + PageUrls(nestedUrls);
            }
          }
        }
      case PageRef(pageUrl) =>
        pages := pages + [pageUrl];
    }
    assert urls[..|urls|] == urls;
  }

  /** The request log agrees with the processed set: a sitemap is processed
      exactly when one of its requests returned a document, it is processed
      once, and once processed it is never requested again. */
  ghost predicate Consistent(fetch: Fetcher, st: Crawl) {
    NoDuplicates(st.processed)
    && (forall u :: u in st.processed <==>
          exists i :: 0 <= i < |st.requests| && st.requests[i] == u && Fetched(fetch(u, i)))
    && (forall i, j :: 0 <= i < j < |st.requests| && st.requests[i] == st.requests[j] ==>
          !Fetched(fetch(st.requests[i], i)))
  }

  /** One request for an unprocessed URL, recorded as the crawl records it. */
  lemma RequestKeepsConsistent(fetch: Fetcher, st: Crawl, url: string)
    requires Consistent(fetch, st) && url !in st.processed
    ensures var data := fetch(url, |st.requests|);
      var st1 := st.(requests := st.requests + [url]);
      Consistent(fetch, if Fetched(data) then st1.(processed := st1.processed + [url]) else st1)
  {
    var n := |st.requests|;
    var requests := st.requests + [url];
    var processed := if Fetched(fetch(url, n)) then st.processed + [url] else st.processed;
    forall u
      ensures u in processed <==> exists i :: 0 <= i < |requests| && requests[i] == u && Fetched(fetch(u, i))
    {
      if u in st.processed {
        var i :| 0 <= i < n && st.requests[i] == u && Fetched(fetch(u, i));
        assert requests[i] == u;
      }
      if exists i :: 0 <= i < |requests| && requests[i] == u && Fetched(fetch(u, i)) {
        var i :| 0 <= i < |requests| && requests[i] == u && Fetched(fetch(u, i));
        if i < n {
          assert st.requests[i] == u;
        }
      }
      if u == url && Fetched(fetch(url, n)) {
        assert requests[n] == u;
      }
    }
    forall i, j | 0 <= i < j < |requests| && requests[i] == requests[j]
      ensures !Fetched(fetch(requests[i], i))
    {
      if j == n {
        assert st.requests[i] == url;
      } else {
        assert st.requests[i] == requests[i] && st.requests[j] == requests[j];
      }
    }
  }

  lemma VisitNestedConsistent(fetch: Fetcher, parse: Parser, st: Crawl, url: string)
    requires Consistent(fetch, st)
    ensures Consistent(fetch, VisitNested(fetch, parse, st, url))
  {
    if url !in st.processed {
      RequestKeepsConsistent(fetch, st, url);
    }
  }

  lemma {:induction false} VisitEntriesConsistent(fetch: Fetcher, parse: Parser, st: Crawl, entries: seq<UrlRef>)
    requires Consistent(fetch, st)
    ensures Consistent(fetch, VisitEntries(fetch, parse, st, entries))
  {
    if |entries| > 0 {
      VisitEntriesConsistent(fetch, parse, st, entries[..|entries| - 1]);
      var mid := VisitEntries(fetch, parse, st, entries[..|entries| - 1]);
      if entries[|entries| - 1].SitemapRef? {
        VisitNestedConsistent(fetch, parse, mid, entries[|entries| - 1].url);
      }
    }
  }

  lemma VisitCandidateConsistent(fetch: Fetcher, parse: Parser, st: Crawl, url: string)
    requires Consistent(fetch, st)
    ensures Consistent(fetch, VisitCandidate(fetch, parse, st, url))
  {
    if url !in st.processed {
      RequestKeepsConsistent(fetch, st, url);
      var data := fetch(url, |st.requests|);
      if Fetched(data) {
        var st2 := st.(requests := st.requests + [url], processed := st.processed + [url]);
        if parse(data.value).Some? {
          VisitEntriesConsistent(fetch, parse, st2, DocumentRefs(parse(data.value).value));
        }
      }
    }
  }

  lemma {:induction false} VisitCandidatesConsistent(fetch: Fetcher, parse: Parser, st: Crawl, urls: seq<string>)
    requires Consistent(fetch, st)
    ensures Consistent(fetch, VisitCandidates(fetch, parse, st, urls))
  {
    if |urls| > 0 {
      VisitCandidatesConsistent(fetch, parse, st, urls[..|urls| - 1]);
      VisitCandidateConsistent(fetch, parse, VisitCandidates(fetch, parse, st, urls[..|urls| - 1]), urls[|urls| - 1]);
    }
  }

  /** Over a whole run: `processedSitemaps` holds exactly the URLs whose
      request returned a document, each once, and no processed URL is requested
      again after the request that processed it. */
  lemma DiscoverConsistent(fetch: Fetcher, parse: Parser)
    ensures Consistent(fetch, Discover(fetch, parse))
  {
    VisitCandidatesConsistent(fetch, parse, Start, SitemapUrls);
  }

  /** The classification report: the `categoryCount` counters and the rules. */
  datatype Report = Report(counts: map<Category, nat>, redirects: seq<Redirect>)

  const NoCounts: map<Category, nat> := map[Writing := 0, Design := 0, VibeCoding := 0, Productivity := 0, All := 0]

  /** Every category has a counter. */
  predicate HasAllCategories(counts: map<Category, nat>) {
    forall c: Category :: c in counts
  }

  lemma NoCountsComplete()
    ensures HasAllCategories(NoCounts)
  {
    forall c: Category
      ensures c in NoCounts
    {
      match c
      case Writing =>
      case Design =>
      case VibeCoding =>
      case Productivity =>
      case All =>
    }
  }

  /** The sum of the five counters. */
  function Total(counts: map<Category, nat>): nat
    requires HasAllCategories(counts)
  {
    counts[Writing] + counts[Design] + counts[VibeCoding] + counts[Productivity] + counts[All]
  }

  /** Counting a URL adds one to the total. */
  lemma TotalIncrement(counts: map<Category, nat>, c: Category)
    requires HasAllCategories(counts)
    ensures HasAllCategories(counts[c := counts[c] + 1])
    ensures Total(counts[c := counts[c] + 1]) == Total(counts) + 1
  {
  }

  /** What one iteration of the loop does with a URL: `new URL` throws, the
      URL is the root and is skipped uncounted, or it is counted in its
      category together with what `generateRedirect` returns for it (no rule
      for the pathname `//`). */
  datatype Outcome = Threw(error: UrlError) | Skipped | Counted(category: Category, rule: Option<Redirect>)

  /** One iteration of the loop for one URL: `categorizeUrl`, then
      `generateRedirect` with the category's name. */
  function OutcomeOf(url: string): (o: Outcome)
    ensures o.Threw? <==> Pathname(url).Err?
    ensures o.Threw? ==> o.error == InvalidUrl(url)
    ensures o.Skipped? <==> Pathname(url) == Ok("/")
    ensures o.Counted? <==> Categorize(url).Ok? && Categorize(url).value.Some?
    ensures o.Counted? ==>
      Categorize(url) == Ok(Some(o.category)) && GenerateRedirect(url, Some(o.category.Name())) == Ok(o.rule)
  {
    match Categorize(url)
    case Err(e) => Threw(e)
    case Ok(None) => Skipped
    case Ok(Some(c)) =>
      match GenerateRedirect(url, Some(c.Name()))
      case Err(e) => Threw(e)
      case Ok(rule) => Counted(c, rule)
  }

  /** The rules an iteration appends: at most one. */
  function OutcomeRules(o: Outcome): (r: seq<Redirect>)
    ensures |r| <= 1
    ensures r != [] <==> o.Counted? && o.rule.Some?
  {
    if o.Counted? && o.rule.Some? then [o.rule.value] else []
  }

  /** The body of the loop applied to the report: it throws, leaves the report
      as it is for the root, or adds one to exactly the URL's category and
      appends its rule. */
  function Step(rep: Report, o: Outcome): (r: Result<Report, UrlError>)
    requires HasAllCategories(rep.counts)
    ensures r.Ok? <==> !o.Threw?
    ensures r.Ok? ==> HasAllCategories(r.value.counts)
    ensures r.Ok? ==> r.value.redirects == rep.redirects + OutcomeRules(o)
    ensures r.Ok? ==> forall c: Category ::
      r.value.counts[c] == rep.counts[c] + (if o.Counted? && o.category == c then 1 else 0)
  {
    match o
    case Threw(e) => Err(e)
    case Skipped => Ok(rep)
    case Counted(c, _) => Ok(Report(rep.counts[c := rep.counts[c] + 1], rep.redirects + OutcomeRules(o)))
  }

  /** One iteration adds one to the total exactly for a counted URL, and at
      most one rule. */
  lemma StepTotal(rep: Report, o: Outcome)
    requires HasAllCategories(rep.counts)
    requires Step(rep, o).Ok?
    ensures Total(Step(rep, o).value.counts) == Total(rep.counts) + (if o.Counted? then 1 else 0)
    ensures |Step(rep, o).value.redirects| <= |rep.redirects| + (if o.Counted? then 1 else 0)
  {
    if o.Counted? {
      TotalIncrement(rep.counts, o.category);
    }
  }

  /** The loop over the unique URLs in order, for any way `outcome` of
      treating one URL; the first URL that throws ends the run with its error. */
  function TallyBy(outcome: string -> Outcome, urls: seq<string>): (r: Result<Report, UrlError>)
    ensures r.Ok? ==> HasAllCategories(r.value.counts)
  {
    if |urls| == 0 then NoCountsComplete(); Ok(Report(NoCounts, []))
    else match TallyBy(outcome, urls[..|urls| - 1])
      case Err(e) => Err(e)
      case Ok(rep) => Step(rep, outcome(urls[|urls| - 1]))
  }

  /** The classify/count/emit loop of `main`. */
  function Tally(urls: seq<string>): (r: Result<Report, UrlError>)
    ensures r.Ok? ==> HasAllCategories(r.value.counts)
  {
    TallyBy(OutcomeOf, urls)
  }

  /** Once a prefix has thrown, the whole loop has thrown the same error. */
  lemma {:induction false} TallyErrPersists(outcome: string -> Outcome, urls: seq<string>, i: nat)
    requires i <= |urls| && TallyBy(outcome, urls[..i]).Err?
    ensures TallyBy(outcome, urls) == TallyBy(outcome, urls[..i])
    decreases |urls| - i
  {
    if i < |urls| {
      assert urls[..i + 1][..i] == urls[..i];
      TallyErrPersists(outcome, urls, i + 1);
    } else {
      assert urls[..i] == urls;
    }
  }

  /** The classify/count/emit loop of `main`, with `outcome` doing what the
      loop body does with one URL (`main` passes `OutcomeOf`). A URL that
      throws ends the loop (and `main`: nothing is written). */
  method GenerateRedirects(outcome: string -> Outcome, uniqueUrls: seq<string>) returns (r: Result<Report, UrlError>)
    ensures r == TallyBy(outcome, uniqueUrls)
  {
    var counts := NoCounts;
    var redirects: seq<Redirect> := [];
    for i := 0 to |uniqueUrls|
      invariant TallyBy(outcome, uniqueUrls[..i]) == Ok(Report(counts, redirects))
    {
      assert uniqueUrls[..i + 1][..i] == uniqueUrls[..i];
      ghost var before := Report(counts, redirects);
      assert TallyBy(outcome, uniqueUrls[..i + 1]) == Step(before, outcome(uniqueUrls[i]));
      match outcome(uniqueUrls[i])
      case Threw(e) =>
        TallyErrPersists(outcome, uniqueUrls, i + 1);
        return Err(e);
      case Skipped =>
      case Counted(c, rule) =>
        counts := counts[c := counts[c] + 1];
        if rule.Some? {
          redirects := redirects + [rule.value];
        } else {
          assert redirects == before.redirects + OutcomeRules(Counted(c, rule));
        }
    }
    assert uniqueUrls[..|uniqueUrls|] == uniqueUrls;
    r := Ok(Report(counts, redirects));
  }

  /** The loop completes exactly when no URL throws. */
  lemma {:induction false} TallyBySucceedsIff(outcome: string -> Outcome, urls: seq<string>)
    ensures TallyBy(outcome, urls).Ok? <==> forall k :: 0 <= k < |urls| ==> !outcome(urls[k]).Threw?
  {
    if |urls| > 0 {
      var init, last := urls[..|urls| - 1], urls[|urls| - 1];
      TallyBySucceedsIff(outcome, init);
      assert forall k :: 0 <= k < |init| ==> init[k] == urls[k];
      if TallyBy(outcome, init).Ok? {
        if TallyBy(outcome, urls).Ok? {
          forall k | 0 <= k < |urls|
            ensures !outcome(urls[k]).Threw?
          {
            if k < |init| {
              assert urls[k] == init[k];
            } else {
              assert urls[k] == last;
            }
          }
        }
      } else {
        var k :| 0 <= k < |init| && outcome(init[k]).Threw?;
        assert urls[k] == init[k];
      }
    }
  }

  /** `k` is the first URL at which `outcome` throws. */
  predicate ThrowsFirstAt(outcome: string -> Outcome, urls: seq<string>, k: int) {
    0 <= k < |urls| && outcome(urls[k]).Threw? && forall j :: 0 <= j < k ==> !outcome(urls[j]).Threw?
  }

  /** A run that throws ends with the error of the first URL that throws. */
  lemma {:induction false} TallyByErr(outcome: string -> Outcome, urls: seq<string>)
    requires TallyBy(outcome, urls).Err?
    ensures exists k :: ThrowsFirstAt(outcome, urls, k) && TallyBy(outcome, urls) == Err(outcome(urls[k]).error)
  {
    var init, last := urls[..|urls| - 1], urls[|urls| - 1];
    assert forall k :: 0 <= k < |init| ==> init[k] == urls[k];
    if TallyBy(outcome, init).Err? {
      TallyByErr(outcome, init);
      var k :| ThrowsFirstAt(outcome, init, k) && TallyBy(outcome, init) == Err(outcome(init[k]).error);
      assert ThrowsFirstAt(outcome, urls, k);
    } else {
      TallyBySucceedsIff(outcome, init);
      assert ThrowsFirstAt(outcome, urls, |urls| - 1);
    }
  }

  /** The rules of the URLs, URL by URL, in order: the reference for the list
      the loop emits. */
  function RulesBy(outcome: string -> Outcome, urls: seq<string>): seq<Redirect> {
    if |urls| == 0 then [] else OutcomeRules(outcome(urls[0])) + RulesBy(outcome, urls[1..])
  }

  lemma {:induction false} RulesBySnoc(outcome: string -> Outcome, urls: seq<string>, url: string)
    ensures RulesBy(outcome, urls + [url]) == RulesBy(outcome, urls) + OutcomeRules(outcome(url))
  {
    if |urls| == 0 {
      assert [] + [url] == [url];
    } else {
      assert (urls + [url])[1..] == urls[1..] + [url];
      RulesBySnoc(outcome, urls[1..], url);
    }
  }

  /** The loop emits the URLs' own rules, in the order of the URLs. */
  lemma {:induction false} TallyByRules(outcome: string -> Outcome, urls: seq<string>)
    requires TallyBy(outcome, urls).Ok?
    ensures TallyBy(outcome, urls).value.redirects == RulesBy(outcome, urls)
  {
    if |urls| > 0 {
      var init, last := urls[..|urls| - 1], urls[|urls| - 1];
      assert urls == init + [last];
      TallyByRules(outcome, init);
      RulesBySnoc(outcome, init, last);
    }
  }

  /** The URLs `outcome` counts in category `c`. */
  function CountedIn(outcome: string -> Outcome, urls: seq<string>, c: Category): seq<string> {
    Filter(urls, (u: string) => outcome(u).Counted? && outcome(u).category == c)
  }

  /** Appending a URL adds it to the URLs counted in its own category only. */
  lemma CountedInSnoc(outcome: string -> Outcome, urls: seq<string>, url: string, c: Category)
    ensures |CountedIn(outcome, urls + [url], c)| ==
            |CountedIn(outcome, urls, c)| + (if outcome(url).Counted? && outcome(url).category == c then 1 else 0)
  {
    FilterAppend(urls, [url], (u: string) => outcome(u).Counted? && outcome(u).category == c);
  }

  /** Each counter holds the number of URLs counted in its category. */
  lemma {:induction false} TallyByCounts(outcome: string -> Outcome, urls: seq<string>)
    requires TallyBy(outcome, urls).Ok?
    ensures forall c: Category :: TallyBy(outcome, urls).value.counts[c] == |CountedIn(outcome, urls, c)|
  {
    if |urls| > 0 {
      var init, last := urls[..|urls| - 1], urls[|urls| - 1];
      assert urls == init + [last];
      TallyByCounts(outcome, init);
      var rep := TallyBy(outcome, init).value;
      assert TallyBy(outcome, urls) == Step(rep, outcome(last));
      forall c: Category
        ensures TallyBy(outcome, urls).value.counts[c] == |CountedIn(outcome, urls, c)|
      {
        CountedInSnoc(outcome, init, last, c);
      }
    }
  }

  /** `outcome` counts in `c` exactly the URLs `q` selects. */
  lemma CountedInCongruent(outcome: string -> Outcome, urls: seq<string>, c: Category, q: string -> bool)
    requires forall u :: u in urls ==> (outcome(u).Counted? && outcome(u).category == c) == q(u)
    ensures CountedIn(outcome, urls, c) == Filter(urls, q)
  {
    FilterCongruent(urls, (u: string) => outcome(u).Counted? && outcome(u).category == c, q);
  }

  /** The URLs `outcome` skips as the root. */
  function SkippedBy(outcome: string -> Outcome, urls: seq<string>): seq<string> {
    Filter(urls, (u: string) => outcome(u).Skipped?)
  }

  /** `outcome` skips exactly the URLs `q` selects. */
  lemma SkippedByCongruent(outcome: string -> Outcome, urls: seq<string>, q: string -> bool)
    requires forall u :: u in urls ==> outcome(u).Skipped? == q(u)
    ensures SkippedBy(outcome, urls) == Filter(urls, q)
  {
    FilterCongruent(urls, (u: string) => outcome(u).Skipped?, q);
  }

  /** The counters add up to the URLs that are not skipped, and there are at
      most as many rules as counted URLs. */
  lemma {:induction false} TallyByTotals(outcome: string -> Outcome, urls: seq<string>)
    requires TallyBy(outcome, urls).Ok?
    ensures Total(TallyBy(outcome, urls).value.counts) == |urls| - |SkippedBy(outcome, urls)|
    ensures |TallyBy(outcome, urls).value.redirects| <= Total(TallyBy(outcome, urls).value.counts)
  {
    if |urls| == 0 {
      assert TallyBy(outcome, urls) == Ok(Report(NoCounts, []));
    } else {
      var init, last := urls[..|urls| - 1], urls[|urls| - 1];
      assert urls == init + [last];
      TallyByTotals(outcome, init);
      StepTotal(TallyBy(outcome, init).value, outcome(last));
      FilterAppend(init, [last], (u: string) => outcome(u).Skipped?);
    }
  }

  /** The rules of the URLs, in order, as `generateRedirect` makes them. */
  function RulesOf(urls: seq<string>): seq<Redirect> {
    RulesBy(OutcomeOf, urls)
  }

  /** The classifier puts `u` in category `c`. */
  predicate ClassifiedAs(u: string, c: Category) {
    Categorize(u) == Ok(Some(c))
  }

  /** The URLs the classifier puts in category `c`. */
  function InCategory(urls: seq<string>, c: Category): seq<string> {
    Filter(urls, (u: string) => ClassifiedAs(u, c))
  }

  /** The pathname of `u` is the root. */
  predicate IsRootUrl(u: string) {
    Pathname(u) == Ok("/")
  }

  /** The URLs whose pathname is the root, which are skipped uncounted. */
  function RootUrls(urls: seq<string>): seq<string> {
    Filter(urls, IsRootUrl)
  }

  /** The loop of `main` completes exactly when every unique URL parses. */
  lemma TallySucceedsIff(urls: seq<string>)
    ensures Tally(urls).Ok? <==> forall k :: 0 <= k < |urls| ==> Pathname(urls[k]).Ok?
  {
    TallyBySucceedsIff(OutcomeOf, urls);
  }

  /** The rules `main` emits are those of the unique URLs, in their order. */
  lemma TallyRules(urls: seq<string>)
    requires Tally(urls).Ok?
    ensures Tally(urls).value.redirects == RulesOf(urls)
  {
    TallyByRules(OutcomeOf, urls);
  }

  /** A URL is counted in `c` exactly when the classifier puts it there. */
  lemma OutcomeCountedIff(u: string, c: Category)
    ensures (OutcomeOf(u).Counted? && OutcomeOf(u).category == c) == (Categorize(u) == Ok(Some(c)))
  {
    var o := OutcomeOf(u);
    assert o.Counted? ==> Categorize(u) == Ok(Some(o.category));
  }

  /** A URL is skipped exactly when its pathname is the root. */
  lemma OutcomeSkippedIff(u: string)
    ensures OutcomeOf(u).Skipped? == (Pathname(u) == Ok("/"))
  {
  }

  /** Each of `main`'s counters holds the number of unique URLs of its category. */
  lemma TallyCounts(urls: seq<string>)
    requires Tally(urls).Ok?
    ensures forall c: Category :: Tally(urls).value.counts[c] == |InCategory(urls, c)|
  {
    TallyByCounts(OutcomeOf, urls);
    forall c: Category
      ensures CountedIn(OutcomeOf, urls, c) == InCategory(urls, c)
    {
      var classified := (u: string) => ClassifiedAs(u, c);
      forall u | u in urls
        ensures (OutcomeOf(u).Counted? && OutcomeOf(u).category == c) == classified(u)
      {
        OutcomeCountedIff(u, c);
      }
      CountedInCongruent(OutcomeOf, urls, c, classified);
    }
  }

  /** A thrown run reports the first unique URL that does not parse. */
  lemma TallyErrIsFirstBadUrl(urls: seq<string>)
    requires Tally(urls).Err?
    ensures exists k ::
      && 0 <= k < |urls|
      && Pathname(urls[k]).Err?
      && (forall j :: 0 <= j < k ==> Pathname(urls[j]).Ok?)
      && Tally(urls) == Err(InvalidUrl(urls[k]))
  {
    TallyByErr(OutcomeOf, urls);
    var k :| ThrowsFirstAt(OutcomeOf, urls, k) && Tally(urls) == Err(OutcomeOf(urls[k]).error);
    forall j | 0 <= j < k
      ensures Pathname(urls[j]).Ok?
    {
      assert !OutcomeOf(urls[j]).Threw?;
    }
    assert OutcomeOf(urls[k]).error == InvalidUrl(urls[k]);
  }

  /** The count bounds of `main`: the counters add up to the unique URLs that
      are not the root, and there are at most as many rules as counted URLs. */
  lemma TallyTotals(urls: seq<string>)
    requires Tally(urls).Ok?
    ensures Total(Tally(urls).value.counts) == |urls| - |RootUrls(urls)|
    ensures |Tally(urls).value.redirects| <= Total(Tally(urls).value.counts) <= |urls|
  {
    TallyByTotals(OutcomeOf, urls);
    var root := IsRootUrl;
    forall u | u in urls
      ensures OutcomeOf(u).Skipped? == root(u)
    {
      OutcomeSkippedIff(u);
    }
    SkippedByCongruent(OutcomeOf, urls, root);
  }

  /** The names of the five categories. */
  const CategoryNames: seq<string> := ["writing", "design", "vibe-coding", "productivity", "all"]

  /** A destination whose `category` parameter names one of the categories. */
  predicate LandsOnCategory(destination: string) {
    CategoryParam(destination).Some? && CategoryParam(destination).value in CategoryNames
  }

  /** Every rule is permanent, has a non-root path as its source and sends
      the visitor to a category: `main` always passes a truthy category, so the
      bare `/?ref=migration` destination never occurs. */
  lemma {:induction false} RulesShape(urls: seq<string>)
    ensures forall rule :: rule in RulesOf(urls) ==>
      rule.permanent && IsPath(rule.source) && rule.source != "/" &&
      LandsOnCategory(rule.destination) && rule.destination != "/?ref=migration"
  {
    if |urls| > 0 {
      RulesShape(urls[1..]);
      OutcomeRulesShape(urls[0]);
    }
  }

  /** The rule of one URL, if any, has the shape `RulesShape` states. */
  lemma OutcomeRulesShape(url: string)
    ensures forall rule :: rule in OutcomeRules(OutcomeOf(url)) ==>
      rule.permanent && IsPath(rule.source) && rule.source != "/" &&
      LandsOnCategory(rule.destination) && rule.destination != "/?ref=migration"
  {
    DestinationRoundTrip(None);
    if Categorize(url).Ok? && Categorize(url).value.Some? {
      var c := Categorize(url).value.value;
      assert c.Name() in CategoryNames by {
        match c
        case Writing =>
        case Design =>
        case VibeCoding =>
        case Productivity =>
        case All =>
      }
    }
  }

  /** The output of a run that completes: the unique URLs, the processed
      sitemaps, the counters and the rules. */
  datatype MigrationOutput = MigrationOutput(
    uniqueUrls: seq<string>,
    processed: seq<string>,
    counts: map<Category, nat>,
    redirects: seq<Redirect>)

  /** A whole run: crawl, de-duplicate in first-seen order, classify and emit. */
  function Migration(fetch: Fetcher, parse: Parser): Result<MigrationOutput, UrlError> {
    var crawl := Discover(fetch, parse);
    var uniqueUrls := Dedup(crawl.pages);
    match Tally(uniqueUrls)
    case Err(e) => Err(e)
    case Ok(rep) => Ok(MigrationOutput(uniqueUrls, crawl.processed, rep.counts, rep.redirects))
  }

  /** `main` up to the writing of its two output files. */
  method GenerateMigrationMap(fetch: Fetcher, parse: Parser) returns (r: Result<MigrationOutput, UrlError>, requests: seq<string>)
    ensures r == Migration(fetch, parse)
    ensures requests == Discover(fetch, parse).requests
  {
    var pages, processed;
    pages, processed, requests := DiscoverPages(fetch, parse);
    var uniqueUrls := Dedup(pages);
    var report := GenerateRedirects(OutcomeOf, uniqueUrls);
    match report
    case Err(e) =>
      r := Err(e);
    case Ok(rep) =>
      r := Ok(MigrationOutput(uniqueUrls, processed, rep.counts, rep.redirects));
  }

  /** What a run guarantees. It throws exactly when some discovered page URL is
      not a URL. Otherwise the unique URLs are the discovered ones, each once,
      in first-seen order; the rules are theirs, in that order; and the count
      bounds hold. */
  lemma MigrationGuarantees(fetch: Fetcher, parse: Parser)
    ensures Migration(fetch, parse).Err? <==> exists u :: u in Discover(fetch, parse).pages && Pathname(u).Err?
    ensures Migration(fetch, parse).Ok? ==>
      var out := Migration(fetch, parse);
      var pages := Discover(fetch, parse).pages;
      NoDuplicates(out.value.uniqueUrls)
      && (forall u :: u in out.value.uniqueUrls <==> u in pages)
      && (forall i, j :: 0 <= i < j < |out.value.uniqueUrls| ==>
            FirstIndex(pages, out.value.uniqueUrls[i]) < FirstIndex(pages, out.value.uniqueUrls[j]))
      && out.value.redirects == RulesOf(out.value.uniqueUrls)
      && |out.value.redirects| <= Total(out.value.counts) <= |out.value.uniqueUrls|
  {
    var pages := Discover(fetch, parse).pages;
    var uniqueUrls := Dedup(pages);
    TallySucceedsIff(uniqueUrls);
    assert (exists u :: u in pages && Pathname(u).Err?) <==>
           (exists k :: 0 <= k < |uniqueUrls| && Pathname(uniqueUrls[k]).Err?);
    if Tally(uniqueUrls).Ok? {
      DedupFirstSeenOrder(pages);
      TallyRules(uniqueUrls);
      TallyTotals(uniqueUrls);
    }
  }
}
