/** The landing-page configuration (`lib/seo-configs.ts`): the roles behind
    `/for/[role]` and the trending topics, their lookup by slug and their slug
    listings. The two tables are parameters. */
module SeoConfigs {
  import opened Wrappers
  import opened Collections

  /** A role landing page; only the fields the lookups and the sitemap use
      besides the recommendation lists are kept. */
  datatype Role = Role(slug: string, title: string, toolCategories: seq<string>, targetTools: seq<string>)

  /** A trending topic. */
  datatype TrendingTopic = TrendingTopic(slug: string, title: string, relatedTools: seq<string>)

  /** `getRoleBySlug`: the first role with the slug, or `undefined`. */
  function RoleBySlug(roles: seq<Role>, slug: string): (r: Option<Role>)
    ensures r.None? <==> forall role :: role in roles ==> role.slug != slug
    ensures r.Some? ==> r.value in roles && r.value.slug == slug
    ensures r.Some? ==> exists k :: 0 <= k < |roles| && roles[k] == r.value && forall j :: 0 <= j < k ==> roles[j].slug != slug
  {
    Find(roles, (role: Role) => role.slug == slug)
  }

  /** `getTopicBySlug`: the first topic with the slug, or `undefined`. */
  function TopicBySlug(topics: seq<TrendingTopic>, slug: string): (r: Option<TrendingTopic>)
    ensures r.None? <==> forall topic :: topic in topics ==> topic.slug != slug
    ensures r.Some? ==> r.value in topics && r.value.slug == slug
    ensures r.Some? ==> exists k :: 0 <= k < |topics| && topics[k] == r.value && forall j :: 0 <= j < k ==> topics[j].slug != slug
  {
    Find(topics, (topic: TrendingTopic) => topic.slug == slug)
  }

  /** `getAllRoleSlugs`: the role slugs in table order. */
  function AllRoleSlugs(roles: seq<Role>): (r: seq<string>)
    ensures |r| == |roles|
    ensures forall i :: 0 <= i < |roles| ==> r[i] == roles[i].slug
  {
    seq(|roles|, i requires 0 <= i < |roles| => roles[i].slug)
  }

  /** `getAllTopicSlugs`: the topic slugs in table order. */
  function AllTopicSlugs(topics: seq<TrendingTopic>): (r: seq<string>)
    ensures |r| == |topics|
    ensures forall i :: 0 <= i < |topics| ==> r[i] == topics[i].slug
  {
    seq(|topics|, i requires 0 <= i < |topics| => topics[i].slug)
  }

  /** A role page's slug resolves exactly when the listing (and so the
      sitemap) contains it. */
  lemma RoleLookupMatchesListing(roles: seq<Role>, slug: string)
    ensures RoleBySlug(roles, slug).Some? <==> slug in AllRoleSlugs(roles)
  {
    var listed := AllRoleSlugs(roles);
    if slug in listed {
      var i :| 0 <= i < |listed| && listed[i] == slug;
      assert roles[i] in roles;
    }
    if RoleBySlug(roles, slug).Some? {
      var i :| 0 <= i < |roles| && roles[i] == RoleBySlug(roles, slug).value;
      assert listed[i] == slug;
    }
  }

  /** A topic's slug resolves exactly when the listing contains it. */
  lemma TopicLookupMatchesListing(topics: seq<TrendingTopic>, slug: string)
    ensures TopicBySlug(topics, slug).Some? <==> slug in AllTopicSlugs(topics)
  {
    var listed := AllTopicSlugs(topics);
    if slug in listed {
      var i :| 0 <= i < |listed| && listed[i] == slug;
      assert topics[i] in topics;
    }
    if TopicBySlug(topics, slug).Some? {
      var i :| 0 <= i < |topics| && topics[i] == TopicBySlug(topics, slug).value;
      assert listed[i] == slug;
    }
  }

  /** With distinct slugs, every listed slug resolves to its own role. */
  lemma RoleLookupRoundTrip(roles: seq<Role>, i: nat)
    requires NoDuplicates(AllRoleSlugs(roles))
    requires i < |roles|
    ensures RoleBySlug(roles, AllRoleSlugs(roles)[i]) == Some(roles[i])
  {
    var listed := AllRoleSlugs(roles);
    var r := RoleBySlug(roles, listed[i]);
    assert roles[i] in roles;
    var k :| 0 <= k < |roles| && roles[k] == r.value;
    assert listed[k] == listed[i];
    assert !(k < i) && !(i < k);
  }

  /** With distinct slugs, every listed slug resolves to its own topic. */
  lemma TopicLookupRoundTrip(topics: seq<TrendingTopic>, i: nat)
    requires NoDuplicates(AllTopicSlugs(topics))
    requires i < |topics|
    ensures TopicBySlug(topics, AllTopicSlugs(topics)[i]) == Some(topics[i])
  {
    var listed := AllTopicSlugs(topics);
    var r := TopicBySlug(topics, listed[i]);
    assert topics[i] in topics;
    var k :| 0 <= k < |topics| && topics[k] == r.value;
    assert listed[k] == listed[i];
    assert !(k < i) && !(i < k);
  }
}
