/** The sitemap (`app/sitemap.ts`): the home page, the four category pages,
    the role pages, the same-category comparison pages and the popular
    cross-category comparisons the catalogue does not already publish. The
    generation time is a parameter; priorities are kept in tenths. */
module SitemapRoutes {
  import opened ToolsData
  import opened SeoConfigs

  const BaseUrl: string := "https://aitooladvisor.com"

  /** The three change frequencies the sitemap uses. */
  datatype ChangeFrequency = Daily | Weekly | Monthly

  /** One sitemap entry; `priority` is the source's value times ten. */
  datatype Route = Route(url: string, lastModified: string, changeFrequency: ChangeFrequency, priority: nat)

  /** The categories that get a page of their own, in sitemap order. */
  const SitemapCategories: seq<string> := ["vibe-coding", "design", "writing", "productivity"]

  /** The cross-category comparisons published in addition, in this order. */
  const PopularCrossCategory: seq<string> :=
    ["lovable-vs-jasper", "cursor-vs-midjourney", "capcut-vs-jasper", "bolt-new-vs-writesonic", "shopify-vs-lovable"]

  const CategoryPrefix: string := BaseUrl + "/?category="
  const RolePrefix: string := BaseUrl + "/for/"
  const ComparePrefix: string := BaseUrl + "/compare/"

  /** The single static entry: the home page. */
  function HomeRoute(date: string): Route {
    Route(BaseUrl, date, Daily, 10)
  }

  /** One entry per slug, at `prefix + slug`, in slug order. */
  function PageRoutes(prefix: string, slugs: seq<string>, date: string, frequency: ChangeFrequency, priority: nat): (r: seq<Route>)
    ensures |r| == |slugs|
    ensures forall i :: 0 <= i < |slugs| ==> r[i] == Route(prefix + slugs[i], date, frequency, priority)
  {
    seq(|slugs|, i requires 0 <= i < |slugs| => Route(prefix + slugs[i], date, frequency, priority))
  }

  /** The `forEach` over the popular comparisons up to (excluding) `k`: an
      entry at priority 0.7 for each one the catalogue does not publish. */
  function AdditionalRoutes(comparisonSlugs: seq<string>, date: string, k: nat): seq<Route>
    requires k <= |PopularCrossCategory|
  {
    if k == 0 then []
    else
      var slug := PopularCrossCategory[k - 1];
      AdditionalRoutes(comparisonSlugs, date, k - 1) +
        (if slug !in comparisonSlugs then [Route(ComparePrefix + slug, date, Monthly, 7)] else [])
  }

  /** The five groups, concatenated in the source's order. */
  function SitemapOf(tools: seq<Tool>, roles: seq<Role>, date: string): seq<Route> {
    var comparisons := AllComparisons(tools);
    [HomeRoute(date)]
      + PageRoutes(CategoryPrefix, SitemapCategories, date, Weekly, 9)
      + PageRoutes(RolePrefix, AllRoleSlugs(roles), date, Weekly, 9)
      + PageRoutes(ComparePrefix, comparisons, date, Monthly, 8)
      + AdditionalRoutes(comparisons, date, |PopularCrossCategory|)
  }

  /** The `additionalComparisons` loop. */
  method AdditionalComparisons(comparisonSlugs: seq<string>, date: string) returns (routes: seq<Route>)
    ensures routes == AdditionalRoutes(comparisonSlugs, date, |PopularCrossCategory|)
  {
    routes := [];
    for k := 0 to |PopularCrossCategory|
      invariant routes == AdditionalRoutes(comparisonSlugs, date, k)
    {
      var slug := PopularCrossCategory[k];
      if slug !in comparisonSlugs {
        routes := routes + [Route(ComparePrefix + slug, date, Monthly, 7)];
      }
    }
  }

  /** `sitemap()`, with the generation time passed in. */
  method Sitemap(tools: seq<Tool>, roles: seq<Role>, date: string) returns (routes: seq<Route>)
    ensures routes == SitemapOf(tools, roles, date)
  {
    var comparisonSlugs := ComparisonSlugs(tools);
    var additional := AdditionalComparisons(comparisonSlugs, date);
    routes := [HomeRoute(date)]
      + PageRoutes(CategoryPrefix, SitemapCategories, date, Weekly, 9)
      + PageRoutes(RolePrefix, AllRoleSlugs(roles), date, Weekly, 9)
      + PageRoutes(ComparePrefix, comparisonSlugs, date, Monthly, 8)
      + additional;
  }

  /** A popular comparison is added exactly when the catalogue does not
      already publish its slug; each is added once, at priority 0.7. */
  lemma {:induction false} AdditionalRoutesMembers(comparisonSlugs: seq<string>, date: string, k: nat)
    requires k <= |PopularCrossCategory|
    ensures |AdditionalRoutes(comparisonSlugs, date, k)| <= k
    ensures forall r :: r in AdditionalRoutes(comparisonSlugs, date, k) <==>
      exists slug :: slug in PopularCrossCategory[..k] && slug !in comparisonSlugs &&
        r == Route(ComparePrefix + slug, date, Monthly, 7)
  {
    if k > 0 {
      AdditionalRoutesMembers(comparisonSlugs, date, k - 1);
      assert PopularCrossCategory[..k] == PopularCrossCategory[..k - 1] + [PopularCrossCategory[k - 1]];
    }
  }

  /** Concatenation with a fixed prefix is injective. */
  lemma PrefixInjective(prefix: string, a: string, b: string)
    requires prefix + a == prefix + b
    ensures a == b
  {
    assert a == (prefix + a)[|prefix|..];
    assert b == (prefix + b)[|prefix|..];
  }

  /** The additional entries never repeat a comparison page the catalogue
      publishes. */
  lemma AdditionalNeverRepeats(tools: seq<Tool>, date: string)
    ensures forall a, b ::
      (a in AdditionalRoutes(AllComparisons(tools), date, |PopularCrossCategory|) &&
       b in PageRoutes(ComparePrefix, AllComparisons(tools), date, Monthly, 8)) ==> a.url != b.url
  {
    var comparisons := AllComparisons(tools);
    var extra := AdditionalRoutes(comparisons, date, |PopularCrossCategory|);
    var pages := PageRoutes(ComparePrefix, comparisons, date, Monthly, 8);
    AdditionalRoutesMembers(comparisons, date, |PopularCrossCategory|);
    forall a, b | a in extra && b in pages
      ensures a.url != b.url
    {
      var slug :| slug in PopularCrossCategory && slug !in comparisons && a == Route(ComparePrefix + slug, date, Monthly, 7);
      var i :| 0 <= i < |pages| && pages[i] == b;
      if a.url == b.url {
        PrefixInjective(ComparePrefix, slug, comparisons[i]);
      }
    }
  }

  /** The size of the sitemap and the home page at its head. */
  lemma SitemapSize(tools: seq<Tool>, roles: seq<Role>, date: string)
    ensures |SitemapOf(tools, roles, date)| ==
      5 + |roles| + |AllComparisons(tools)| + |AdditionalRoutes(AllComparisons(tools), date, |PopularCrossCategory|)|
    ensures |AdditionalRoutes(AllComparisons(tools), date, |PopularCrossCategory|)| <= |PopularCrossCategory|
    ensures SitemapOf(tools, roles, date)[0] == HomeRoute(date)
  {
    AdditionalRoutesMembers(AllComparisons(tools), date, |PopularCrossCategory|);
  }

  /** The four category pages come right after the home page, in order. */
  lemma SitemapCategoryPages(tools: seq<Tool>, roles: seq<Role>, date: string)
    ensures |SitemapOf(tools, roles, date)| >= 5
    ensures forall i :: 0 <= i < 4 ==>
      SitemapOf(tools, roles, date)[1 + i] == Route(CategoryPrefix + SitemapCategories[i], date, Weekly, 9)
  {
    var r := SitemapOf(tools, roles, date);
    var head := [HomeRoute(date)] + PageRoutes(CategoryPrefix, SitemapCategories, date, Weekly, 9);
    assert r[..5] == head;
    forall i | 0 <= i < 4
      ensures r[1 + i] == Route(CategoryPrefix + SitemapCategories[i], date, Weekly, 9)
    {
      assert r[1 + i] == head[1 + i];
    }
  }

  /** Indexing into the middle part of a concatenation. */
  lemma MiddleAt<T>(front: seq<T>, middle: seq<T>, back: seq<T>, i: nat)
    requires i < |middle|
    ensures (front + middle + back)[|front| + i] == middle[i]
    ensures (front + middle + back)[|front| + |middle|..] == back
  {
  }

  /** Indexing into the second of four concatenated parts. */
  lemma SecondOfFourAt<T>(front: seq<T>, middle: seq<T>, b1: seq<T>, b2: seq<T>, i: nat)
    requires i < |middle|
    ensures (front + middle + b1 + b2)[|front| + i] == middle[i]
  {
    MiddleAt(front, middle, b1, i);
  }

  /** Then one page per role, in table order. */
  lemma SitemapRolePages(tools: seq<Tool>, roles: seq<Role>, date: string)
    ensures |SitemapOf(tools, roles, date)| >= 5 + |roles|
    ensures forall i :: 0 <= i < |roles| ==>
      SitemapOf(tools, roles, date)[5 + i] == Route(RolePrefix + roles[i].slug, date, Weekly, 9)
  {
    var comparisons := AllComparisons(tools);
    var head := [HomeRoute(date)] + PageRoutes(CategoryPrefix, SitemapCategories, date, Weekly, 9);
    var g3 := PageRoutes(RolePrefix, AllRoleSlugs(roles), date, Weekly, 9);
    var g4 := PageRoutes(ComparePrefix, comparisons, date, Monthly, 8);
    var g5 := AdditionalRoutes(comparisons, date, |PopularCrossCategory|);
    assert SitemapOf(tools, roles, date) == head + g3 + g4 + g5;
    forall i | 0 <= i < |roles|
      ensures (head + g3 + g4 + g5)[5 + i] == Route(RolePrefix + roles[i].slug, date, Weekly, 9)
    {
      SecondOfFourAt(head, g3, g4, g5, i);
    }
  }

  /** Then one page per catalogue comparison, in enumeration order, and the
      additional comparisons last. */
  lemma SitemapComparisonPages(tools: seq<Tool>, roles: seq<Role>, date: string)
    ensures var r, k, m := SitemapOf(tools, roles, date), 5 + |roles|, |AllComparisons(tools)|;
      |r| >= k + m &&
      (forall i :: 0 <= i < m ==> r[k + i] == Route(ComparePrefix + AllComparisons(tools)[i], date, Monthly, 8)) &&
      r[k + m..] == AdditionalRoutes(AllComparisons(tools), date, |PopularCrossCategory|)
  {
    var comparisons := AllComparisons(tools);
    var front := [HomeRoute(date)]
      + PageRoutes(CategoryPrefix, SitemapCategories, date, Weekly, 9)
      + PageRoutes(RolePrefix, AllRoleSlugs(roles), date, Weekly, 9);
    var g4 := PageRoutes(ComparePrefix, comparisons, date, Monthly, 8);
    var g5 := AdditionalRoutes(comparisons, date, |PopularCrossCategory|);
    assert SitemapOf(tools, roles, date) == front + g4 + g5;
    assert |front| == 5 + |roles|;
    if |comparisons| == 0 {
      assert (front + g4 + g5)[|front|..] == g5;
    }
    forall i | 0 <= i < |comparisons|
      ensures (front + g4 + g5)[|front| + i] == Route(ComparePrefix + comparisons[i], date, Monthly, 8)
    {
      MiddleAt(front, g4, g5, i);
    }
  }

  /** Every entry is stamped with the generation time, at a priority
      between 0.7 and 1.0. */
  lemma SitemapStamped(tools: seq<Tool>, roles: seq<Role>, date: string)
    ensures forall r :: r in SitemapOf(tools, roles, date) ==> r.lastModified == date && 7 <= r.priority <= 10
  {
    var comparisons := AllComparisons(tools);
    var g1 := [HomeRoute(date)];
    var g2 := PageRoutes(CategoryPrefix, SitemapCategories, date, Weekly, 9);
    var g3 := PageRoutes(RolePrefix, AllRoleSlugs(roles), date, Weekly, 9);
    var g4 := PageRoutes(ComparePrefix, comparisons, date, Monthly, 8);
    var g5 := AdditionalRoutes(comparisons, date, |PopularCrossCategory|);
    AdditionalRoutesMembers(comparisons, date, |PopularCrossCategory|);
    assert SitemapOf(tools, roles, date) == g1 + g2 + g3 + g4 + g5;
    forall r: Route | r in g1 + g2 + g3 + g4 + g5
      ensures r.lastModified == date && 7 <= r.priority <= 10
    {
      if r in g2 {
        var i :| 0 <= i < |g2| && g2[i] == r;
      } else if r in g3 {
        var i :| 0 <= i < |g3| && g3[i] == r;
      } else if r in g4 {
        var i :| 0 <= i < |g4| && g4[i] == r;
      }
    }
  }
}
