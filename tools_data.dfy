/** The tool catalogue (`lib/tools-data.ts`): lookup by slug, the category,
    role and featured views, and the same-category comparison slugs that the
    sitemap publishes. The catalogue itself is a parameter: every operation
    reads the `TOOLS` array and nothing else. */
module ToolsData {
  import opened Wrappers
  import opened Collections

  /** The fields of a catalogue entry that the operations read or the page
      searches; `targetRoles` is optional in the catalogue's type. */
  datatype Tool = Tool(
    id: int,
    slug: string,
    name: string,
    category: string,
    description: string,
    featured: bool,
    targetRoles: Option<seq<string>>)

  /** No two entries share a slug. */
  ghost predicate UniqueSlugs(tools: seq<Tool>) {
    forall i, j :: 0 <= i < j < |tools| ==> tools[i].slug != tools[j].slug
  }

  /** `getToolBySlug`: the first entry with the slug, or `undefined`. */
  function ToolBySlug(tools: seq<Tool>, slug: string): (r: Option<Tool>)
    ensures r.None? <==> forall t :: t in tools ==> t.slug != slug
    ensures r.Some? ==> r.value in tools && r.value.slug == slug
    ensures r.Some? ==> exists k :: 0 <= k < |tools| && tools[k] == r.value && forall j :: 0 <= j < k ==> tools[j].slug != slug
  {
    Find(tools, (t: Tool) => t.slug == slug)
  }

  /** With unique slugs, looking up an entry's own slug finds that entry. */
  lemma ToolBySlugFindsEntry(tools: seq<Tool>, t: Tool)
    requires UniqueSlugs(tools)
    requires t in tools
    ensures ToolBySlug(tools, t.slug) == Some(t)
  {
    var r := ToolBySlug(tools, t.slug);
    var i, k :| 0 <= i < |tools| && tools[i] == t && 0 <= k < |tools| && tools[k] == r.value;
    assert !(i < k) && !(k < i);
  }

  /** `getToolsByCategory`: the whole catalogue for `'all'`, otherwise the
      entries of that category in catalogue order. */
  function ToolsByCategory(tools: seq<Tool>, category: string): (r: seq<Tool>)
    ensures category != "all" ==> forall t :: t in r <==> t in tools && t.category == category
    ensures |r| <= |tools|
  {
    if category == "all" then tools else Filter(tools, (t: Tool) => t.category == category)
  }

  /** The `'all'` tab is the whole catalogue, in catalogue order. */
  lemma ToolsByCategoryAll(tools: seq<Tool>)
    ensures ToolsByCategory(tools, "all") == tools
  {
  }

  /** The category view keeps catalogue order: the view of a concatenation
      is the concatenation of the views. */
  lemma ToolsByCategoryAppend(a: seq<Tool>, b: seq<Tool>, category: string)
    ensures ToolsByCategory(a + b, category) == ToolsByCategory(a, category) + ToolsByCategory(b, category)
  {
    if category != "all" {
      FilterAppend(a, b, (t: Tool) => t.category == category);
    }
  }

  /** `t.targetRoles?.includes(role)`: an entry without roles never matches. */
  predicate HasRole(t: Tool, role: string) {
    t.targetRoles.Some? && role in t.targetRoles.value
  }

  /** `getToolsByRole`: the entries that list the role, in catalogue order. */
  function ToolsByRole(tools: seq<Tool>, role: string): (r: seq<Tool>)
    ensures forall t :: t in r <==> t in tools && HasRole(t, role)
    ensures |r| <= |tools|
  {
    Filter(tools, (t: Tool) => HasRole(t, role))
  }

  /** The role view keeps catalogue order. */
  lemma ToolsByRoleAppend(a: seq<Tool>, b: seq<Tool>, role: string)
    ensures ToolsByRole(a + b, role) == ToolsByRole(a, role) + ToolsByRole(b, role)
  {
    FilterAppend(a, b, (t: Tool) => HasRole(t, role));
  }

  /** `getFeaturedTools`: the featured entries, in catalogue order. */
  function FeaturedTools(tools: seq<Tool>): (r: seq<Tool>)
    ensures forall t :: t in r <==> t in tools && t.featured
    ensures |r| <= |tools|
  {
    Filter(tools, (t: Tool) => t.featured)
  }

  /** The featured view keeps catalogue order. */
  lemma FeaturedToolsAppend(a: seq<Tool>, b: seq<Tool>)
    ensures FeaturedTools(a + b) == FeaturedTools(a) + FeaturedTools(b)
  {
    FilterAppend(a, b, (t: Tool) => t.featured);
  }

  // ---------------------------------------------------------------------
  // Comparison slugs

  /** The category of every entry, in catalogue order. */
  function CategoryColumn(tools: seq<Tool>): (r: seq<string>)
    ensures |r| == |tools|
    ensures forall i :: 0 <= i < |tools| ==> r[i] == tools[i].category
  {
    seq(|tools|, i requires 0 <= i < |tools| => tools[i].category)
  }

  /** `[...new Set(TOOLS.map(t => t.category))]`: each category once, in
      order of first appearance. */
  function Categories(tools: seq<Tool>): (r: seq<string>)
    ensures NoDuplicates(r)
    ensures forall c :: c in r <==> exists t :: t in tools && t.category == c
  {
    var column := CategoryColumn(tools);
    assert forall t :: t in tools ==> t.category in column by {
      forall t | t in tools ensures t.category in column {
        var i :| 0 <= i < |tools| && tools[i] == t;
        assert column[i] == t.category;
      }
    }
    Dedup(column)
  }

  /** The categories are listed in the order in which the catalogue first
      mentions them. */
  lemma CategoriesFirstSeenOrder(tools: seq<Tool>)
    ensures forall i, j :: 0 <= i < j < |Categories(tools)| ==>
      FirstIndex(CategoryColumn(tools), Categories(tools)[i]) < FirstIndex(CategoryColumn(tools), Categories(tools)[j])
  {
    DedupFirstSeenOrder(CategoryColumn(tools));
  }

  /** The slug of the comparison page of two entries. */
  function PairSlug(a: Tool, b: Tool): string {
    a.slug + "-vs-" + b.slug
  }

  /** The innermost loop for row `i`, with `j` run up to (excluding) `n`. */
  function RowSlugs(ct: seq<Tool>, i: nat, n: nat): seq<string>
    requires i < |ct| && n <= |ct|
  {
    if n <= i + 1 then [] else RowSlugs(ct, i, n - 1) + [PairSlug(ct[i], ct[n - 1])]
  }

  /** The two inner loops over one category's entries, rows `0 .. m - 1`. */
  function Pairs(ct: seq<Tool>, m: nat): seq<string>
    requires m <= |ct|
  {
    if m == 0 then [] else Pairs(ct, m - 1) + RowSlugs(ct, m - 1, |ct|)
  }

  /** The slugs contributed by one category. */
  function CategoryPairs(tools: seq<Tool>, category: string): seq<string> {
    var ct := ToolsByCategory(tools, category);
    Pairs(ct, |ct|)
  }

  /** The outer loop over the first `k` categories. */
  function PairsOver(tools: seq<Tool>, cats: seq<string>, k: nat): seq<string>
    requires k <= |cats|
  {
    if k == 0 then [] else PairsOver(tools, cats, k - 1) + CategoryPairs(tools, cats[k - 1])
  }

  /** The result of `getAllComparisonSlugs`. */
  function AllComparisons(tools: seq<Tool>): seq<string> {
    var cats := Categories(tools);
    PairsOver(tools, cats, |cats|)
  }

  /** `getAllComparisonSlugs`: for each category, every pair `i < j` of its
      entries, in loop order. */
  method ComparisonSlugs(tools: seq<Tool>) returns (slugs: seq<string>)
    ensures slugs == AllComparisons(tools)
  {
    slugs := [];
    var cats := Categories(tools);
    for k := 0 to |cats|
      invariant slugs == PairsOver(tools, cats, k)
    {
      var ct := ToolsByCategory(tools, cats[k]);
      var pairs := CategorySlugs(ct);
      slugs := slugs + pairs;
    }
  }

  /** The two inner loops of `getAllComparisonSlugs` over one category's entries. */
  method CategorySlugs(ct: seq<Tool>) returns (slugs: seq<string>)
    ensures slugs == Pairs(ct, |ct|)
  {
    slugs := [];
    for i := 0 to |ct|
      invariant slugs == Pairs(ct, i)
    {
      ghost var done := slugs;
      for j := i + 1 to |ct|
        invariant slugs == done + RowSlugs(ct, i, j)
      {
        slugs := slugs + [PairSlug(ct[i], ct[j])];
      }
    }
  }

  /** The slug of a pair `i < j` of the sequence. */
  ghost predicate IsPairOf(ct: seq<Tool>, s: string) {
    exists i, j :: 0 <= i < j < |ct| && s == PairSlug(ct[i], ct[j])
  }

  lemma {:induction false} RowSlugsMembers(ct: seq<Tool>, i: nat, n: nat)
    requires i < |ct| && n <= |ct|
    ensures forall s :: s in RowSlugs(ct, i, n) <==> exists j :: i < j < n && s == PairSlug(ct[i], ct[j])
  {
    if n > i + 1 {
      RowSlugsMembers(ct, i, n - 1);
    }
  }

  lemma {:induction false} PairsMembers(ct: seq<Tool>, m: nat)
    requires m <= |ct|
    ensures forall s :: s in Pairs(ct, m) <==>
      exists i, j :: 0 <= i < m && i < j < |ct| && s == PairSlug(ct[i], ct[j])
  {
    if m > 0 {
      PairsMembers(ct, m - 1);
      RowSlugsMembers(ct, m - 1, |ct|);
    }
  }

  lemma {:induction false} PairsOverMembers(tools: seq<Tool>, cats: seq<string>, k: nat)
    requires k <= |cats|
    ensures forall s :: s in PairsOver(tools, cats, k) <==>
      exists c :: c in cats[..k] && IsPairOf(ToolsByCategory(tools, c), s)
  {
    if k > 0 {
      PairsOverMembers(tools, cats, k - 1);
      var ct := ToolsByCategory(tools, cats[k - 1]);
      PairsMembers(ct, |ct|);
      assert cats[..k] == cats[..k - 1] + [cats[k - 1]];
    }
  }

  /** A slug is published exactly when it names a pair `i < j` of some
      category's entries, for a category that some entry has. */
  lemma ComparisonMembers(tools: seq<Tool>, s: string)
    ensures s in AllComparisons(tools) <==>
      exists c :: c in Categories(tools) && IsPairOf(ToolsByCategory(tools, c), s)
  {
    var cats := Categories(tools);
    PairsOverMembers(tools, cats, |cats|);
    assert cats[..|cats|] == cats;
  }

  /** With no entry of category `'all'`, every published slug pairs an
      entry with a later entry of the same category; with unique slugs the
      two slugs differ, so no entry is paired with itself. */
  lemma ComparisonsShareCategory(tools: seq<Tool>, s: string)
    requires forall t :: t in tools ==> t.category != "all"
    requires s in AllComparisons(tools)
    ensures exists p, q ::
      0 <= p < q < |tools| && tools[p].category == tools[q].category && s == PairSlug(tools[p], tools[q]) &&
      (UniqueSlugs(tools) ==> tools[p].slug != tools[q].slug)
  {
    ComparisonMembers(tools, s);
    var c :| c in Categories(tools) && IsPairOf(ToolsByCategory(tools, c), s);
    var ct := ToolsByCategory(tools, c);
    var i, j :| 0 <= i < j < |ct| && s == PairSlug(ct[i], ct[j]);
    assert c != "all";
    FilterOrder(tools, (t: Tool) => t.category == c, i, j);
    var p, q :| 0 <= p < q < |tools| && tools[p] == ct[i] && tools[q] == ct[j];
    assert ct[i] in ct && ct[j] in ct;
    assert tools[p].category == tools[q].category;
  }

  /** Every entry and a later entry of the same category are published as a
      pair. */
  lemma SameCategoryPairsListed(tools: seq<Tool>, p: nat, q: nat)
    requires p < q < |tools| && tools[p].category == tools[q].category
    ensures PairSlug(tools[p], tools[q]) in AllComparisons(tools)
  {
    var c := tools[p].category;
    var ct := ToolsByCategory(tools, c);
    assert tools[p] in tools;
    if c == "all" {
      assert IsPairOf(ct, PairSlug(tools[p], tools[q]));
    } else {
      FilterKeepsPair(tools, (t: Tool) => t.category == c, p, q);
      var i, j :| 0 <= i < j < |ct| && ct[i] == tools[p] && ct[j] == tools[q];
      assert IsPairOf(ct, PairSlug(tools[p], tools[q]));
    }
    ComparisonMembers(tools, PairSlug(tools[p], tools[q]));
  }

  /** How many pairs `i < j` a sequence of `n` entries has, doubled. */
  lemma {:induction false} RowSlugsLength(ct: seq<Tool>, i: nat, n: nat)
    requires i < |ct| && n <= |ct|
    ensures |RowSlugs(ct, i, n)| == if n <= i + 1 then 0 else n - i - 1
  {
    if n > i + 1 {
      RowSlugsLength(ct, i, n - 1);
    }
  }

  /** The number of pairs `i < j` among `n` entries: entry `n - 1` pairs
      with each of the `n - 1` before it. */
  function PairCount(n: nat): nat {
    if n == 0 then 0 else PairCount(n - 1) + (n - 1)
  }

  /** The closed form: `n` entries have `n(n-1)/2` pairs. */
  lemma {:induction false} PairCountFormula(n: nat)
    ensures 2 * PairCount(n) == n * (n - 1)
  {
    if n > 0 {
      PairCountFormula(n - 1);
      assert n * (n - 1) == (n - 1) * (n - 2) + 2 * (n - 1);
    }
  }

  /** The first `m` rows of `n` entries hold all pairs but those among the
      last `n - m` entries. */
  lemma {:induction false} PairsLength(ct: seq<Tool>, m: nat)
    requires m <= |ct|
    ensures |Pairs(ct, m)| + PairCount(|ct| - m) == PairCount(|ct|)
  {
    if m > 0 {
      PairsLength(ct, m - 1);
      RowSlugsLength(ct, m - 1, |ct|);
      assert PairCount(|ct| - (m - 1)) == PairCount(|ct| - m) + (|ct| - m);
    }
  }

  /** Each category contributes `n(n-1)/2` slugs for its `n` entries. */
  lemma CategoryPairsCount(tools: seq<Tool>, category: string)
    ensures |CategoryPairs(tools, category)| == PairCount(|ToolsByCategory(tools, category)|)
  {
    var ct := ToolsByCategory(tools, category);
    PairsLength(ct, |ct|);
  }

  /** The published count is the sum of `n(n-1)/2` over the categories. */
  function CountOver(tools: seq<Tool>, cats: seq<string>, k: nat): nat
    requires k <= |cats|
  {
    if k == 0 then 0 else CountOver(tools, cats, k - 1) + PairCount(|ToolsByCategory(tools, cats[k - 1])|)
  }

  /** One more category adds its `n(n-1)/2` slugs. */
  lemma PairsOverStep(tools: seq<Tool>, cats: seq<string>, k: nat)
    requires 0 < k <= |cats|
    requires |PairsOver(tools, cats, k - 1)| == CountOver(tools, cats, k - 1)
    ensures |PairsOver(tools, cats, k)| == CountOver(tools, cats, k)
  {
    CategoryPairsCount(tools, cats[k - 1]);
  }

  lemma {:induction false} PairsOverCount(tools: seq<Tool>, cats: seq<string>, k: nat)
    requires k <= |cats|
    ensures |PairsOver(tools, cats, k)| == CountOver(tools, cats, k)
  {
    if k > 0 {
      PairsOverCount(tools, cats, k - 1);
      PairsOverStep(tools, cats, k);
    }
  }

  lemma ComparisonCount(tools: seq<Tool>)
    ensures |AllComparisons(tools)| == CountOver(tools, Categories(tools), |Categories(tools)|)
  {
    PairsOverCount(tools, Categories(tools), |Categories(tools)|);
  }
}
