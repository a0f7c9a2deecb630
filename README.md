# AiToolAdvisor core, modelled in Dafny

This project models the logic of the AiToolAdvisor site (a Next.js catalogue of AI tools) and proves
properties about that model. It covers five parts.

- **The SEO migration mapper** (`scripts/generate-migration-map.js`). It crawls the old site's
  sitemaps, with a guard so no sitemap is processed twice. It then:
  - de-duplicates the discovered page URLs in first-seen order;
  - classifies each URL with an ordered, first-match-wins keyword classifier;
  - counts the categories;
  - emits permanent redirect rules to `/?category=<c>&ref=migration`.
- **The tool catalogue queries** (`lib/tools-data.ts`): lookup by slug; the category, role and
  featured views; and the same-category comparison slugs `a-vs-b`.
- **The sitemap** (`app/sitemap.ts`). It lists the home page, the four category pages, the role
  pages, the comparison pages, and the popular cross-category comparisons that the catalogue does
  not already publish.
- **The landing-page configuration lookups** (`lib/seo-configs.ts`).
- **The home page's state** (`app/page.tsx`): liked tools, the two-tool comparison, toasts, the
  `category` query parameter, the Escape key, the directory filter and the comparison modal's guard.

Modules and files:

| module | file | contents |
|---|---|---|
| `Wrappers` | `wrappers.dfy` | `Option` and `Result` |
| `Collections` | `collections.dfy` | `Array.prototype.filter` and `find`, and `[...new Set(xs)]` |
| `Text` | `text.dfy` | ASCII `toLowerCase` and `includes` |
| `Urls` | `urls.dfy` | `new URL(u).pathname`, for absolute http(s) URLs |
| `MigrationMap` | `migration_map.dfy` | `categorizeUrl`, `generateRedirect`, `extractUrls` |
| `MigrationRun` | `migration_run.dfy` | the body of `main`: crawl, de-duplicate, count and emit |
| `ToolsData` | `tools_data.dfy` | `lib/tools-data.ts` |
| `SeoConfigs` | `seo_configs.dfy` | `lib/seo-configs.ts` |
| `SitemapRoutes` | `sitemap.dfy` | `app/sitemap.ts` |
| `AdvisorPage` | `advisor_page.dfy` | `app/page.tsx`, with the `PageState` class |

How the model maps the program:
- **Loops:** the source's imperative loops are methods (`ExtractUrls`, `DiscoverPages`,
  `ProcessEntries`, `GenerateRedirects`, `ComparisonSlugs`, `CategorySlugs`,
  `AdditionalComparisons`). Each is proved equal to a left-fold specification function, and the
  properties are proved about those functions. `GenerateRedirects` takes what one iteration does
  with a URL as a parameter, and `main` passes `OutcomeOf`. The counting properties are proved for
  any such parameter (`TallyBy…`) and then for `OutcomeOf` (`Tally…`).
- **Page state:** the `useState` fields are fields of the `PageState` class. Its methods apply the
  updater functions.
- **Exceptions and `undefined`:** a `new URL` that throws is an `Err`. `undefined` is `None`.
- **Inputs from outside:** the network fetch is a function of the URL and the request's ordinal.
  The XML parser is a function from text to an optional document tree. The clock (`Date.now()`,
  `new Date().toISOString()`) is a parameter.
- **Data tables:** the catalogue tables (`TOOLS`, `ROLES`, `TRENDING_TOPICS`) are parameters.

## Where the code decides

The model follows the code where its behaviour is surprising:

- **Matching covers the whole URL.** The classifier matches keywords against the whole lower-cased
  URL, host included. `aitooladvisor.com` contains `tool`, so a URL on that host that matches none
  of the first three keyword lists is `productivity`. Such a URL never reaches the `'all'` fallback
  (`SiteUrlsNeverFallBack`). For example, `.../reviews/midjourney` is `productivity`.
- **The `'all'` fallback is truthy.** Its redirect goes to `/?category=all&ref=migration`. The bare
  `/?ref=migration` destination needs a falsy category, and `main` never passes one (`RulesShape`).
- **An unparseable URL aborts the run.** A discovered page URL that `new URL` rejects is not
  skipped. `new URL` throws, `main().catch` receives the error, and no file is written. The model
  returns `Err` for the first such URL in de-duplicated order (`TallyErrIsFirstBadUrl`,
  `MigrationGuarantees`).

## Model

| member | source | states |
|---|---|---|
| Urls.Pathname | scripts/generate-migration-map.js:66 | `new URL(url).pathname` is a `/`-led path without query or fragment; a string that, once trimmed and stripped of tabs and newlines, is not an absolute http(s) URL with a valid host throws `InvalidUrl(url)` |
| Urls.CleanedIgnoresPadding | scripts/generate-migration-map.js:66 | the parser's preprocessing drops leading and trailing spaces and control characters |
| Urls.NoTabsRemain | scripts/generate-migration-map.js:66 | no tab or newline survives the preprocessing |
| Urls.PathnameIgnoresPadding | scripts/generate-migration-map.js:66 | a `<loc>` padded with spaces and newlines, as pretty-printed XML gives it, has the pathname of the bare URL, for a path the parser keeps as it is |
| Urls.PathnameOfPadded | scripts/generate-migration-map.js:66 | padding around any URL changes its pathname in no way; only the text a throw reports differs |
| Urls.PathnameOfSlashes | scripts/generate-migration-map.js:66 | any number of slashes after `https:`, none included (`https:host/x`, `https:///host/x`), gives the pathname of `https://host/x`, for a path the parser keeps as it is |
| Urls.SpaceInHostRefused | scripts/generate-migration-map.js:66 | a host with a space inside it (`https://exa mple.com/`) throws |
| Urls.PathnameOfParts | scripts/generate-migration-map.js:106 | the pathname of `https://host/path` is exactly `/path`, for a path the parser keeps as it is (printable ASCII except `"`, `<`, `>`, `^`, a backtick, `{`, `}` and `\`, with no `.` or `..` segment in any spelling) |
| Urls.PathnameIgnoresQuery | scripts/generate-migration-map.js:106 | a query string does not change the pathname of a path the parser keeps as it is |
| Urls.PathnameOfBareHost | scripts/generate-migration-map.js:66 | a URL with no path has pathname `/` |
| Text.ContainsLower | scripts/generate-migration-map.js:65 | a substring of a URL is still a substring after lower-casing both |
| MigrationMap.Categorize | scripts/generate-migration-map.js:64-103 | throws exactly when the pathname throws; `null` exactly when the pathname is `/` or empty; otherwise the category of the lower-cased whole URL |
| MigrationMap.ClassifyIsFirstMatch | scripts/generate-migration-map.js:73-102 | the if-chain equals the first rule of the ordered table whose keyword list matches; rule i wins iff it matches and no earlier rule does; `'all'` iff no list matches |
| MigrationMap.MentionsKeyword | scripts/generate-migration-map.js:74-97 | a disjunction of `includes` tests holds when the text includes any one keyword it tests |
| MigrationMap.MatchIgnoresCase | scripts/generate-migration-map.js:65 | a keyword occurring in any letter case in the URL is found |
| MigrationMap.WritingTakesPrecedence | scripts/generate-migration-map.js:73-78 | a non-root URL containing any writing keyword is `writing`, whatever else it contains |
| MigrationMap.SiteUrlsNeverFallBack | scripts/generate-migration-map.js:95-102 | no URL on `https://aitooladvisor.com` is classified `'all'`, because the host contains `tool` |
| MigrationMap.SiteUrlsMentionTool | scripts/generate-migration-map.js:65 | every lower-cased URL on `https://aitooladvisor.com` includes the productivity keyword `tool` |
| MigrationMap.DestinationRoundTrip | scripts/generate-migration-map.js:117-119 | a destination built with a truthy category holds exactly that category between `/?category=` and `&ref=migration`, and `/?ref=migration` holds none; for a category without `&`, `#`, `%` or `+` (all five names `main` passes) that is what the landing page reads back |
| MigrationMap.GenerateRedirect | scripts/generate-migration-map.js:105-126 | throws exactly on a bad URL; `null` exactly for the pathnames `/` and `//`; otherwise a permanent rule whose source is the pathname without its trailing slash if it has one and the pathname itself if not, and whose destination carries the category iff it is truthy and is `/?ref=migration` iff it is not |
| MigrationMap.TrailingSlashNormalised | scripts/generate-migration-map.js:109-111 | `/path` and `/path/` produce the same rule, for a path the parser keeps as it is |
| MigrationMap.RedirectOfPath | scripts/generate-migration-map.js:105-126 | a URL with a non-root path the parser keeps as it is gets a permanent rule from the path with one trailing slash removed |
| MigrationMap.RootIsNeverRedirected | scripts/generate-migration-map.js:69-71 | the bare host is uncategorised and never redirected |
| MigrationMap.Refs | scripts/generate-migration-map.js:45-58 | one entry per input at most, all tagged with the group's type |
| MigrationMap.RefsOfOne | scripts/generate-migration-map.js:46-47 | an entry yields its first `loc` exactly when that is present and non-empty |
| MigrationMap.ExtractUrls | scripts/generate-migration-map.js:40-62 | the two push loops produce the document's references |
| MigrationMap.ExtractOrder | scripts/generate-migration-map.js:40-62 | every `sitemap` reference precedes every `page` reference; at most one per entry; a tree with neither root yields nothing |
| MigrationMap.RefsAppend | scripts/generate-migration-map.js:45-49 | extraction proceeds entry by entry in document order |
| MigrationRun.PageUrls | scripts/generate-migration-map.js:164 | a nested sitemap contributes at most one page URL per entry, and a URL is among them iff it is the URL of one of its `page` entries |
| MigrationRun.PageUrlsAppend | scripts/generate-migration-map.js:164 | the page URLs of a list are those of its parts, in order |
| MigrationRun.VisitNestedEffect | scripts/generate-migration-map.js:155-166 | a nested sitemap costs no request once processed and exactly one otherwise; a successful fetch marks it processed; the pages grow by exactly the page URLs of its document, whose sitemap entries are not followed |
| MigrationRun.DiscoverPages | scripts/generate-migration-map.js:136-172 | the crawl loop computes the pages, processed sitemaps and requests of the specification `Discover` |
| MigrationRun.ProcessEntries | scripts/generate-migration-map.js:152-171 | the entry loop, including the nested fetch, computes `VisitEntries` |
| MigrationRun.RequestKeepsConsistent | scripts/generate-migration-map.js:140-144 | a request keeps the invariant: a sitemap is processed iff some request for it succeeded, and none is requested again after success |
| MigrationRun.VisitNestedConsistent | scripts/generate-migration-map.js:155-166 | a nested-sitemap visit keeps the invariant |
| MigrationRun.VisitEntriesConsistent | scripts/generate-migration-map.js:152-171 | the entry loop keeps the invariant |
| MigrationRun.VisitCandidateConsistent | scripts/generate-migration-map.js:137-149 | one candidate sitemap keeps the invariant |
| MigrationRun.VisitCandidatesConsistent | scripts/generate-migration-map.js:136-172 | the candidate loop keeps the invariant |
| MigrationRun.DiscoverConsistent | scripts/generate-migration-map.js:133-172 | the whole crawl: processed sitemaps are distinct, each was fetched successfully, and none was fetched again after that |
| MigrationRun.NoCountsComplete | scripts/generate-migration-map.js:182-188 | the counters start with one entry for each of the five categories |
| MigrationRun.TotalIncrement | scripts/generate-migration-map.js:193 | incrementing one counter keeps all five and adds one to their total |
| MigrationRun.OutcomeOf | scripts/generate-migration-map.js:191-197 | one iteration throws iff the URL does not parse, with that URL's error; skips the URL iff its pathname is `/`; otherwise counts it in the category `categorizeUrl` returns, with the rule `generateRedirect` returns for that category's name |
| MigrationRun.OutcomeRules | scripts/generate-migration-map.js:194-197 | an iteration appends at most one rule, and one exactly when the URL is counted and `generateRedirect` returns a rule |
| MigrationRun.Step | scripts/generate-migration-map.js:191-197 | the loop body throws iff the iteration throws; otherwise it adds one to exactly the URL's own category (if any), keeps the other counters, and appends the iteration's rule |
| MigrationRun.StepTotal | scripts/generate-migration-map.js:192-197 | an iteration adds one to the total iff the URL is counted, and at most one rule |
| MigrationRun.Tally | scripts/generate-migration-map.js:181-199 | the counting loop keeps a counter for every category |
| MigrationRun.TallyErrPersists | scripts/generate-migration-map.js:190-191 | once a URL has thrown, the rest of the loop is not reached |
| MigrationRun.GenerateRedirects | scripts/generate-migration-map.js:181-199 | the counting and emitting loop, for any loop body, computes the fold `TallyBy` of that body over the unique URLs |
| MigrationRun.TallyBySucceedsIff | scripts/generate-migration-map.js:190-199 | for any loop body, the loop completes iff no iteration throws |
| MigrationRun.TallyByErr | scripts/generate-migration-map.js:190-191 | for any loop body, a failed loop reports the error of the first iteration that throws |
| MigrationRun.RulesBySnoc | scripts/generate-migration-map.js:194-197 | the reference rule list grows URL by URL at its end |
| MigrationRun.TallyByRules | scripts/generate-migration-map.js:190-199 | for any loop body, the emitted rules are those of the iterations, in URL order |
| MigrationRun.CountedInSnoc | scripts/generate-migration-map.js:192-193 | the URLs counted in a category grow by one exactly when the next URL is counted in it |
| MigrationRun.TallyByCounts | scripts/generate-migration-map.js:182-193 | for any loop body, each counter equals the number of URLs counted in that category |
| MigrationRun.TallyByTotals | scripts/generate-migration-map.js:181-199 | for any loop body, the total of the counters is the number of URLs minus the skipped ones, and there are no more rules than counted URLs |
| MigrationRun.TallySucceedsIff | scripts/generate-migration-map.js:190-199 | the loop completes iff every unique URL parses |
| MigrationRun.TallyRules | scripts/generate-migration-map.js:190-199 | the emitted rules are those of the unique URLs, in their order |
| MigrationRun.TallyCounts | scripts/generate-migration-map.js:182-193 | each counter equals the number of unique URLs of that category |
| MigrationRun.TallyErrIsFirstBadUrl | scripts/generate-migration-map.js:190-191 | a failed run reports the first unique URL that does not parse: every URL before it parses |
| MigrationRun.TallyTotals | scripts/generate-migration-map.js:181-199 | total of the counters = unique URLs minus root URLs; rules ≤ total ≤ unique URLs |
| MigrationRun.OutcomeRulesShape | scripts/generate-migration-map.js:192-196 | the rule one iteration emits, if any, is permanent, has a non-root path source and leads to a category |
| MigrationRun.RulesShape | scripts/generate-migration-map.js:192-196 | every rule is permanent, has a non-root path source and leads to a category, never to the bare `/?ref=migration` |
| MigrationRun.GenerateMigrationMap | scripts/generate-migration-map.js:128-199 | the run computes the specification `Migration` and issues the requests of `Discover` |
| MigrationRun.MigrationGuarantees | scripts/generate-migration-map.js:174-199 | the run throws iff some discovered page URL does not parse; otherwise the unique URLs are the discovered ones, each once, in first-seen order, with their rules in that order and the count bounds |
| Collections.Dedup | scripts/generate-migration-map.js:175 | `[...new Set(xs)]` keeps exactly the elements, each once |
| Collections.DedupFirstSeenOrder | scripts/generate-migration-map.js:175 | the de-duplicated URLs are in order of first discovery |
| Collections.DedupOfDistinct | scripts/generate-migration-map.js:175 | a list without repeats is unchanged |
| Collections.FindIndex | lib/tools-data.ts:404 | `find` stops at the first element satisfying the predicate; none is found iff no element satisfies it |
| Collections.Find | lib/tools-data.ts:404 | `find` yields a value iff some element satisfies the predicate, and then the first element that does |
| Collections.Filter | lib/tools-data.ts:409 | `filter` keeps exactly the elements satisfying the predicate and never lengthens the list |
| ToolsData.ToolBySlug | lib/tools-data.ts:403-405 | `undefined` iff no tool has the slug; otherwise the first catalogue tool with that slug |
| ToolsData.ToolBySlugFindsEntry | lib/tools-data.ts:403-405 | with unique slugs, a tool's own slug finds that tool |
| ToolsData.ToolsByCategory | lib/tools-data.ts:407-410 | a category other than `'all'` gives exactly its tools, and the result is never longer than the catalogue |
| ToolsData.ToolsByCategoryAll | lib/tools-data.ts:408 | `'all'` gives the catalogue unchanged |
| ToolsData.ToolsByCategoryAppend | lib/tools-data.ts:407-410 | the category view preserves catalogue order |
| ToolsData.ToolsByRole | lib/tools-data.ts:412-414 | exactly the tools whose optional role list contains the role; a tool without roles never |
| ToolsData.ToolsByRoleAppend | lib/tools-data.ts:412-414 | the role view preserves catalogue order |
| ToolsData.FeaturedTools | lib/tools-data.ts:416-418 | exactly the featured tools |
| ToolsData.FeaturedToolsAppend | lib/tools-data.ts:416-418 | the featured view preserves catalogue order |
| ToolsData.Categories | lib/tools-data.ts:423 | each category that some tool has, exactly once |
| ToolsData.CategoriesFirstSeenOrder | lib/tools-data.ts:423 | the categories come in the order in which the catalogue first mentions them |
| ToolsData.ComparisonSlugs | lib/tools-data.ts:421-435 | the three loops compute `AllComparisons`, category by category, pair by pair |
| ToolsData.CategorySlugs | lib/tools-data.ts:427-431 | the two inner loops compute all pairs `i < j` of one category's tools |
| ToolsData.RowSlugsMembers | lib/tools-data.ts:428-430 | the innermost loop pairs tool i with each later tool |
| ToolsData.PairsMembers | lib/tools-data.ts:427-431 | the inner loops produce exactly the pairs `i < j` |
| ToolsData.PairsOverMembers | lib/tools-data.ts:425-432 | the outer loop produces exactly the pairs of the categories visited |
| ToolsData.ComparisonMembers | lib/tools-data.ts:421-435 | a slug is published iff it names a pair `i < j` of some category's tools |
| ToolsData.ComparisonsShareCategory | lib/tools-data.ts:421-435 | every published slug pairs a tool with a later tool of the same category, and (with unique slugs) never a tool with itself |
| ToolsData.SameCategoryPairsListed | lib/tools-data.ts:421-435 | every tool paired with a later tool of its category is published |
| ToolsData.RowSlugsLength | lib/tools-data.ts:428-430 | row i has `n - i - 1` slugs |
| ToolsData.PairsLength | lib/tools-data.ts:427-431 | the first m rows over n tools emit every pair `i < j` except those among the last `n - m` tools |
| ToolsData.PairCountFormula | lib/tools-data.ts:427-431 | n tools have `n(n-1)/2` pairs `i < j` |
| ToolsData.CategoryPairsCount | lib/tools-data.ts:426-431 | a category of n tools contributes `n(n-1)/2` slugs |
| ToolsData.PairsOverStep | lib/tools-data.ts:425-432 | one more category adds its `n(n-1)/2` slugs to the running count |
| ToolsData.PairsOverCount | lib/tools-data.ts:425-432 | the outer loop's output length is the running sum of `n(n-1)/2` |
| ToolsData.ComparisonCount | lib/tools-data.ts:421-435 | the number of slugs is the sum of `n(n-1)/2` over the categories |
| SeoConfigs.RoleBySlug | lib/seo-configs.ts:151-153 | `undefined` iff no role has the slug; otherwise the first role with that slug |
| SeoConfigs.TopicBySlug | lib/seo-configs.ts:155-157 | `undefined` iff no topic has the slug; otherwise the first topic with that slug |
| SeoConfigs.AllRoleSlugs | lib/seo-configs.ts:159-161 | same length and order as the roles, entry i is role i's slug |
| SeoConfigs.AllTopicSlugs | lib/seo-configs.ts:163-165 | same length and order as the topics, entry i is topic i's slug |
| SeoConfigs.RoleLookupMatchesListing | lib/seo-configs.ts:151-161 | a role slug resolves iff the listing contains it |
| SeoConfigs.TopicLookupMatchesListing | lib/seo-configs.ts:155-165 | a topic slug resolves iff the listing contains it |
| SeoConfigs.RoleLookupRoundTrip | lib/seo-configs.ts:151-161 | with distinct slugs, listed slug i resolves to role i |
| SeoConfigs.TopicLookupRoundTrip | lib/seo-configs.ts:155-165 | with distinct slugs, listed slug i resolves to topic i |
| SitemapRoutes.PageRoutes | app/sitemap.ts:26-49 | one route per slug, at `prefix + slug`, in slug order |
| SitemapRoutes.AdditionalComparisons | app/sitemap.ts:52-72 | the `forEach` loop computes `AdditionalRoutes` |
| SitemapRoutes.Sitemap | app/sitemap.ts:7-91 | the function computes `SitemapOf` |
| SitemapRoutes.AdditionalRoutesMembers | app/sitemap.ts:55-72 | a popular comparison is added, at priority 0.7, iff its slug is not among the catalogue's |
| SitemapRoutes.AdditionalNeverRepeats | app/sitemap.ts:63-72 | no additional route repeats a catalogue comparison route |
| SitemapRoutes.SitemapSize | app/sitemap.ts:75-81 | length `1 + 4 + roles + comparisons + additional`, additional at most 5, home page first |
| SitemapRoutes.SitemapCategoryPages | app/sitemap.ts:21-31 | entries 1-4 are the category pages in the order vibe-coding, design, writing, productivity |
| SitemapRoutes.SitemapRolePages | app/sitemap.ts:43-49 | then one `/for/<slug>` page per role, in table order |
| SitemapRoutes.SitemapComparisonPages | app/sitemap.ts:34-40 | then one `/compare/<slug>` page per comparison slug, in order, and the additional ones last |
| SitemapRoutes.SitemapStamped | app/sitemap.ts:8-81 | every entry carries the one generation time, and a priority between 0.7 and 1.0 |
| AdvisorPage.CategoryFromParam | app/page.tsx:429-436 | the tab changes iff the parameter is one of the five valid categories, and then to it |
| AdvisorPage.ToggledLike | app/page.tsx:445 | the id's membership flips; other ids are unchanged |
| AdvisorPage.ToggleLikeTwice | app/page.tsx:445 | liking twice restores the set |
| AdvisorPage.CompareSelect | app/page.tsx:446 | a selected id is removed, and from a list without repeats exactly its one occurrence, the rest keeping their order; an unselected one is appended if fewer than two are selected, otherwise the list is kept and the toast raised |
| AdvisorPage.DeselectRemovesOne | app/page.tsx:446 | deselecting from a list without repeats removes the id's one occurrence and keeps the others in order |
| AdvisorPage.CompareSelectKeepsLimit | app/page.tsx:446 | the selection never exceeds two and never repeats an id |
| AdvisorPage.CompareSelectTwice | app/page.tsx:446 | selecting and deselecting a tool restores the list |
| AdvisorPage.AddedToast | app/page.tsx:438-440 | the new toast goes last, the others are kept |
| AdvisorPage.RemovedToast | app/page.tsx:444 | every toast with the id goes, the others stay |
| AdvisorPage.RemovedToastAppend | app/page.tsx:444 | removal works toast by toast, so the toasts that stay keep their order |
| AdvisorPage.RemoveAfterAdd | app/page.tsx:438-444 | removing the toast just raised undoes the raise |
| AdvisorPage.RemoveAbsent | app/page.tsx:444 | removing an absent id changes nothing |
| AdvisorPage.FilteredTools | app/page.tsx:247 | a tool shows iff its category matches the tab (or `'all'`) and the lower-cased query occurs in its lower-cased name or description |
| AdvisorPage.EmptySearchShowsCategory | app/page.tsx:247 | with an empty query the directory is exactly the category view, in catalogue order |
| AdvisorPage.SearchIgnoresQueryCase | app/page.tsx:247 | the query's letter case does not matter |
| AdvisorPage.FilterWithinCategory | app/page.tsx:247 | the directory only shows tools of the active tab |
| AdvisorPage.ModalTools | app/page.tsx:499 | the modal's tools are the catalogue tools whose id is selected |
| AdvisorPage.ModalIgnoresSelectionOrder | app/page.tsx:499 | the modal's tools are in catalogue order, independent of selection order |
| AdvisorPage.ModalNeedsTwoSelections | app/page.tsx:102 | with unique tool ids the modal renders only when two tools are selected |
| AdvisorPage.MigrationLandsOnTab | app/page.tsx:429-436 | a migrated visitor's destination opens the tab of the category the old page was classified into |
| AdvisorPage.SitemapCategoriesOpenTheirTab | app/page.tsx:429-436 | every category page the sitemap lists opens on its own tab |
| AdvisorPage.PageState.constructor | app/page.tsx:414-426 | the initial state: empty search, tab `'all'`, closed modals, nothing liked, selected or toasted |
| AdvisorPage.PageState.SetSearchQuery | app/page.tsx:464 | only the query changes |
| AdvisorPage.PageState.SelectCategory | app/page.tsx:253 | only the tab changes |
| AdvisorPage.PageState.ApplyCategoryParam | app/page.tsx:429-436 | the tab becomes `CategoryFromParam`; nothing else changes |
| AdvisorPage.PageState.AddToast | app/page.tsx:438-442 | the toast list becomes `AddedToast`; nothing else changes |
| AdvisorPage.PageState.RemoveToast | app/page.tsx:444 | the toast list becomes `RemovedToast`; nothing else changes |
| AdvisorPage.PageState.ToggleLike | app/page.tsx:445 | the liked set becomes `ToggledLike`; nothing else changes |
| AdvisorPage.PageState.HandleCompareSelect | app/page.tsx:446 | the list becomes `CompareSelect`'s, with the "Max 2 Tools" toast when full; the at-most-two invariant holds |
| AdvisorPage.PageState.OpenCompare | app/page.tsx:487-488 | the Compare button opens the modal |
| AdvisorPage.PageState.ClearCompare | app/page.tsx:492 | the clear button empties the selection |
| AdvisorPage.PageState.KeyDown | app/page.tsx:449 | Escape closes the four modals and leaves the mobile menu; other keys change nothing |
| AdvisorPage.PageState.Directory | app/page.tsx:247 | the directory of the current state only shows tools of the active tab |

## Left out

- **Network and parser.** `fetchSitemap` (axios, headers, timeout) and `parseSitemap` (xml2js) are
  parameters: a fetch result per URL and request, and an optional parsed tree. Logging is not
  modelled.
- **Files and console.** The two `fs.writeFileSync` outputs of the generator, their text, their
  ISO timestamps, and the console reports in both the generator and `sitemap()` are not modelled.
  The model ends with the values written (unique URLs, processed sitemaps, counts, rules).
- **URLs.** `Urls.Pathname` models `new URL` for absolute `http`/`https` URLs only. It models the
  trimming of spaces and controls, the removal of tabs and newlines, any number of slashes after
  the scheme, and the refusal of a host holding a control, a space, `<`, `>`, `^`, `|` or DEL. It
  does not model:
  - percent-encoding of the path: a space, a non-ASCII letter, `"`, `<`, `>`, `^`, `` ` ``, `{` or
    `}` in a path is kept as is, and the model's pathname then differs from `new URL`'s. The
    lemmas about explicit paths assume `PathSafe`, which excludes these characters and dot
    segments;
  - percent-decoding and IDNA mapping of the host;
  - dot-segment removal (`/a/../b` is `/b` under `new URL`);
  - backslashes, which the parser reads as slashes;
  - userinfo (`@`), ports (`:`) and IPv6 hosts (`[`, `]`), and their validation;
  - IPv4 parsing of a host whose last label is a number: `new URL` throws on `a.1` and
    `1.2.3.256`, while the model accepts them;
  - schemes other than http(s), which `new URL` accepts but the model treats as throwing.
- MigrationMap.CategoryParam: reads the `category` parameter as the raw text between
  `/?category=` and `&ref=migration`. `searchParams.get` would stop at a `&` or `#` and decode `%xx`
  and `+`. The five category names that `main` passes contain none of these, so the two readings
  agree on every destination `main` emits.
- **Lower-casing.** `toLowerCase` is modelled for ASCII letters only. It has no Unicode case
  mapping.
- **Catalogue tables.** `TOOLS`, `ROLES`, `TRENDING_TOPICS` and `FAQS` are parameters, not their
  concrete contents. The `Tool` record keeps only the fields the operations read.
- **Dates.** `MONTH_YEAR` and `CURRENT_YEAR` are not modelled.
- ToolsData.ComparisonsShareCategory: assumes no tool has the category `'all'`.
  `getToolsByCategory('all')` returns every tool, so such a tool would be paired with tools of other
  categories.
- ToolsData.ComparisonMembers: "each pair appears exactly once" is stated through the pair indices
  and the `n(n-1)/2` count, not on the slug strings. Slugs that themselves contain `-vs-` can make
  two different pairs spell the same string.
- **Priorities.** Sitemap priorities are kept in tenths as natural numbers rather than as
  floating-point values.
- **Home page.** The following are not modelled:
  - all rendering;
  - the Gemini consultant and its offline fallback;
  - the matchmaker and the `highlightId` effect;
  - `handleRedirect` with `window.open`;
  - the top bar, the newsletter form, and the mobile-menu and modal open/close buttons other than
    Compare;
  - speech recognition and `sessionStorage`;
  - the floating-point `Sparkline` and average-rating display.
- **Timers.** The four-second removal timer of `addToast` is not modelled. Its callback is
  `PageState.RemoveToast`, which the environment may call at any time.
- **Toast ids.** Toast ids come from `Date.now()` and are a parameter. Two toasts raised in the same
  millisecond share an id, and `RemoveToast` removes both.
- **React scheduling.** Batching and development-mode double invocation of the
  `handleCompareSelect` updater (which would raise its toast twice) are not modelled. Each handler
  is applied once, in order.
- **Static files.** `scripts/redirects.js` (hand-written rule data) and `next.config.ts` (which
  concatenates it with two fixed rules) hold no logic of their own.
