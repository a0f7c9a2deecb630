/** The interactive state of the home page (`app/page.tsx`): the search box,
    the category tabs and the `category` query parameter, liked tools, the
    two-tool comparison, toasts, the modals the Escape key closes, the
    directory filter and the comparison modal's guard. Each state update is a
    pure function of the previous value, as React's updater callbacks are; the
    `PageState` class applies them in place. Timestamps (`Date.now()`) are
    parameters. */
module AdvisorPage {
  import opened Wrappers
  import opened Collections
  import opened Text
  import opened ToolsData
  import MigrationMap
  import SitemapRoutes

  /** The values the `category` query parameter may select. */
  const ValidCategories: seq<string> := ["vibe-coding", "design", "writing", "productivity", "all"]

  /** A toast notification; its id is the millisecond it was raised. */
  datatype Toast = Toast(id: int, title: string, message: string)

  // ---------------------------------------------------------------------
  // State updates

  /** The category effect: a present, non-empty parameter naming a valid
      category selects it; anything else leaves the tab alone. */
  function CategoryFromParam(param: Option<string>, current: string): (r: string)
    ensures param.Some? && param.value in ValidCategories ==> r == param.value
    ensures !(param.Some? && param.value in ValidCategories) ==> r == current
  {
    if param.Some? && param.value != "" && param.value in ValidCategories then param.value else current
  }

  /** `toggleLike`: flips membership of `id` and of nothing else. */
  function ToggledLike(liked: set<int>, id: int): (r: set<int>)
    ensures id in r <==> id !in liked
    ensures forall x :: x != id ==> (x in r <==> x in liked)
  {
    if id in liked then liked - {id} else liked + {id}
  }

  /** Liking twice restores the set. */
  lemma ToggleLikeTwice(liked: set<int>, id: int)
    ensures ToggledLike(ToggledLike(liked, id), id) == liked
  {
    var once := ToggledLike(liked, id);
    var twice := ToggledLike(once, id);
    assert forall x :: x in twice <==> x in liked;
  }

  /** The outcome of `handleCompareSelect`: the new list, and whether the
      "Max 2 Tools" toast is raised. */
  datatype CompareStep = CompareStep(list: seq<int>, full: bool)

  /** `handleCompareSelect`: a selected id is deselected; otherwise it is
      appended unless two are selected already, which raises a toast. */
  function CompareSelect(list: seq<int>, id: int): (r: CompareStep)
    ensures id in list ==> !r.full && id !in r.list && forall x :: x != id ==> (x in r.list <==> x in list)
    ensures id in list && NoDuplicates(list) ==>
      r.list == list[..FirstIndex(list, id)] + list[FirstIndex(list, id) + 1..]
    ensures id !in list && |list| >= 2 ==> r.full && r.list == list
    ensures id !in list && |list| < 2 ==> !r.full && r.list == list + [id]
  {
    if id in list then
      DeselectRemovesOne(list, id);
      CompareStep(Filter(list, (x: int) => x != id), false)
    else if |list| >= 2 then CompareStep(list, true)
    else CompareStep(list + [id], false)
  }

  /** Deselecting removes the one occurrence of the id from a list without
      repeats and keeps the rest in order. */
  lemma DeselectRemovesOne(list: seq<int>, id: int)
    requires id in list
    ensures NoDuplicates(list) ==>
      Filter(list, (x: int) => x != id) == list[..FirstIndex(list, id)] + list[FirstIndex(list, id) + 1..]
  {
    if NoDuplicates(list) {
      OnlyOccurrence(list, FirstIndex(list, id));
      DeselectLastOccurrence(list, id);
    }
  }

  /** Deselecting an id that occurs once removes exactly that occurrence. */
  lemma DeselectLastOccurrence(list: seq<int>, id: int)
    requires id in list && id !in list[FirstIndex(list, id) + 1..]
    ensures Filter(list, (x: int) => x != id) == list[..FirstIndex(list, id)] + list[FirstIndex(list, id) + 1..]
  {
    var p := (x: int) => x != id;
    var k := FirstIndex(list, id);
    var before, after := list[..k], list[k + 1..];
    assert list == before + [id] + after;
    FilterDropsOne(before, id, after, p);
  }

  /** In a list without repeats, an element does not occur again later. */
  lemma OnlyOccurrence(list: seq<int>, k: nat)
    requires NoDuplicates(list) && k < |list|
    ensures list[k] !in list[k + 1..]
  {
  }

  /** At most two distinct tools are ever selected. */
  ghost predicate CompareListOk(list: seq<int>) {
    |list| <= 2 && NoDuplicates(list)
  }

  /** Selecting keeps the selection within two distinct tools. */
  lemma CompareSelectKeepsLimit(list: seq<int>, id: int)
    requires CompareListOk(list)
    ensures CompareListOk(CompareSelect(list, id).list)
  {
    if id in list {
      FilterNoDuplicates(list, (x: int) => x != id);
    } else if |list| < 2 {
      var next := list + [id];
      assert forall i :: 0 <= i < |list| ==> next[i] == list[i] && next[i] != id;
    }
  }

  /** Selecting a tool that fits and selecting it again restores the list. */
  lemma CompareSelectTwice(list: seq<int>, id: int)
    requires CompareListOk(list)
    requires id !in list && |list| < 2
    ensures CompareSelect(CompareSelect(list, id).list, id) == CompareStep(list, false)
  {
    var p := (x: int) => x != id;
    FilterAppend(list, [id], p);
    FilterAll(list, p);
    assert Filter([id], p) == [];
  }

  /** `addToast`: the new toast goes last. */
  function AddedToast(toasts: seq<Toast>, id: int, title: string, message: string): (r: seq<Toast>)
    ensures |r| == |toasts| + 1 && r[..|toasts|] == toasts && r[|toasts|] == Toast(id, title, message)
  {
    toasts + [Toast(id, title, message)]
  }

  /** `removeToast` and the four-second timer: every toast with the id goes,
      the others stay in order. */
  function RemovedToast(toasts: seq<Toast>, id: int): (r: seq<Toast>)
    ensures forall t :: t in r <==> t in toasts && t.id != id
    ensures |r| <= |toasts|
  {
    Filter(toasts, (t: Toast) => t.id != id)
  }

  /** Removal works toast by toast: the toasts that stay keep their order. */
  lemma {:induction false} RemovedToastAppend(a: seq<Toast>, b: seq<Toast>, id: int)
    ensures RemovedToast(a + b, id) == RemovedToast(a, id) + RemovedToast(b, id)
  {
    FilterAppend(a, b, (t: Toast) => t.id != id);
  }

  /** Removing a toast right after raising it undoes the raise; two toasts
      raised in the same millisecond share an id and go together. */
  lemma RemoveAfterAdd(toasts: seq<Toast>, id: int, title: string, message: string)
    ensures RemovedToast(AddedToast(toasts, id, title, message), id) == RemovedToast(toasts, id)
  {
    FilterAppend(toasts, [Toast(id, title, message)], (t: Toast) => t.id != id);
  }

  /** Removing an id no toast carries changes nothing. */
  lemma RemoveAbsent(toasts: seq<Toast>, id: int)
    requires forall t :: t in toasts ==> t.id != id
    ensures RemovedToast(toasts, id) == toasts
  {
    FilterAll(toasts, (t: Toast) => t.id != id);
  }

  // ---------------------------------------------------------------------
  // Directory filter and comparison modal

  /** The `ToolGrid` filter: the active tab (or `'all'`) and a
      case-insensitive substring match on the name or the description. */
  predicate MatchesFilter(tool: Tool, activeCategory: string, query: string) {
    (activeCategory == "all" || tool.category == activeCategory) &&
    (Contains(Lower(tool.name), Lower(query)) || Contains(Lower(tool.description), Lower(query)))
  }

  /** The tools the directory shows, in catalogue order. */
  function FilteredTools(tools: seq<Tool>, activeCategory: string, query: string): (r: seq<Tool>)
    ensures forall t :: t in r <==> t in tools && MatchesFilter(t, activeCategory, query)
    ensures |r| <= |tools|
  {
    Filter(tools, (t: Tool) => MatchesFilter(t, activeCategory, query))
  }

  /** With an empty search box the directory shows exactly the category view
      of the catalogue. */
  lemma EmptySearchShowsCategory(tools: seq<Tool>, activeCategory: string)
    ensures FilteredTools(tools, activeCategory, "") == ToolsByCategory(tools, activeCategory)
  {
    assert Lower("") == "";
    forall t | t in tools
      ensures MatchesFilter(t, activeCategory, "") == (activeCategory == "all" || t.category == activeCategory)
    {
      ContainsEmpty(Lower(t.name));
    }
    if activeCategory == "all" {
      FilterAll(tools, (t: Tool) => MatchesFilter(t, activeCategory, ""));
    } else {
      FilterCongruent(tools, (t: Tool) => MatchesFilter(t, activeCategory, ""), (t: Tool) => t.category == activeCategory);
    }
  }

  /** The search ignores the case of the query. */
  lemma SearchIgnoresQueryCase(tools: seq<Tool>, activeCategory: string, query: string)
    ensures FilteredTools(tools, activeCategory, Lower(query)) == FilteredTools(tools, activeCategory, query)
  {
    LowerIsLower(query);
    FilterCongruent(tools, (t: Tool) => MatchesFilter(t, activeCategory, Lower(query)),
      (t: Tool) => MatchesFilter(t, activeCategory, query));
  }

  /** Whatever the query, the directory shows only tools of the active tab. */
  lemma FilterWithinCategory(tools: seq<Tool>, activeCategory: string, query: string)
    ensures forall t :: t in FilteredTools(tools, activeCategory, query) ==> t in ToolsByCategory(tools, activeCategory)
  {
  }

  /** The tools handed to the comparison modal: the catalogue entries whose
      id is selected, in catalogue order. */
  function ModalTools(tools: seq<Tool>, compareList: seq<int>): (r: seq<Tool>)
    ensures forall t :: t in r <==> t in tools && t.id in compareList
  {
    Filter(tools, (t: Tool) => t.id in compareList)
  }

  /** The `CompareModal` guard: open and at least two tools to show. */
  predicate ModalRendered(isOpen: bool, modalTools: seq<Tool>) {
    isOpen && |modalTools| >= 2
  }

  /** The modal shows the selected tools in catalogue order, whatever the
      order they were selected in. */
  lemma ModalIgnoresSelectionOrder(tools: seq<Tool>, list: seq<int>, other: seq<int>)
    requires forall x :: x in list <==> x in other
    ensures ModalTools(tools, list) == ModalTools(tools, other)
  {
    FilterCongruent(tools, (t: Tool) => t.id in list, (t: Tool) => t.id in other);
  }

  /** No two catalogue entries share an id. */
  ghost predicate UniqueIds(tools: seq<Tool>) {
    forall i, j :: 0 <= i < j < |tools| ==> tools[i].id != tools[j].id
  }

  /** With unique ids, the modal renders only when two tools are selected. */
  lemma ModalNeedsTwoSelections(tools: seq<Tool>, compareList: seq<int>, isOpen: bool)
    requires UniqueIds(tools)
    requires CompareListOk(compareList)
    requires ModalRendered(isOpen, ModalTools(tools, compareList))
    ensures |compareList| == 2
  {
    var shown := ModalTools(tools, compareList);
    var a, b := shown[0], shown[1];
    assert a in shown && b in shown;
    var i :| 0 <= i < |tools| && tools[i] == a;
    var j :| 0 <= j < |tools| && tools[j] == b;
    FilterNoDuplicates(tools, (t: Tool) => t.id in compareList) by {
      assert forall p, q :: 0 <= p < q < |tools| ==> tools[p] != tools[q];
    }
    assert a != b;
    assert i != j;
    assert a.id != b.id;
  }

  /** A migrated visitor lands on the tab of the category their old page was
      classified into. */
  lemma MigrationLandsOnTab(c: MigrationMap.Category, current: string)
    ensures CategoryFromParam(MigrationMap.CategoryParam(MigrationMap.Destination(Some(c.Name()))), current) == c.Name()
  {
    MigrationMap.DestinationRoundTrip(Some(c.Name()));
    match c
    case Writing =>
    case Design =>
    case VibeCoding =>
    case Productivity =>
    case All =>
  }

  /** Every category page the sitemap lists opens on its own tab. */
  lemma SitemapCategoriesOpenTheirTab(current: string)
    ensures forall c :: c in SitemapRoutes.SitemapCategories ==> CategoryFromParam(Some(c), current) == c
  {
    assert SitemapRoutes.SitemapCategories == ValidCategories[..4];
  }

  // ---------------------------------------------------------------------
  // The page component

  /** The state hooks of `AiToolAdvisorContent` that the handlers update. */
  class PageState {
    var searchQuery: string
    var activeCategory: string
    var showConsultant: bool
    var showMatchmaker: bool
    var showCompare: bool
    var showNewsletter: bool
    var isMobileMenuOpen: bool
    var likedTools: set<int>
    var compareList: seq<int>
    var toasts: seq<Toast>

    /** What every handler keeps: a valid tab and at most two distinct
        selected tools. */
    ghost predicate Valid()
      reads this
    {
      activeCategory in ValidCategories && CompareListOk(compareList)
    }

    /** The initial `useState` values. */
    constructor ()
      ensures Valid()
      ensures searchQuery == "" && activeCategory == "all"
      ensures !showConsultant && !showMatchmaker && !showCompare && !showNewsletter && !isMobileMenuOpen
      ensures likedTools == {} && compareList == [] && toasts == []
    {
      searchQuery := "";
      activeCategory := "all";
      showConsultant, showMatchmaker, showCompare, showNewsletter := false, false, false, false;
      isMobileMenuOpen := false;
      likedTools := {};
      compareList := [];
      toasts := [];
    }

    /** The search box's `onChange`. */
    method SetSearchQuery(query: string)
      modifies this
      requires Valid()
      ensures Valid()
      ensures isMobileMenuOpen == old(isMobileMenuOpen)
      ensures searchQuery == query
      ensures activeCategory == old(activeCategory) && compareList == old(compareList)
      ensures likedTools == old(likedTools) && toasts == old(toasts)
      ensures showConsultant == old(showConsultant) && showMatchmaker == old(showMatchmaker)
      ensures showCompare == old(showCompare) && showNewsletter == old(showNewsletter)
    {
      searchQuery := query;
    }

    /** A category tab: the tabs offer exactly the valid categories. */
    method SelectCategory(category: string)
      modifies this
      requires Valid()
      requires category in ValidCategories
      ensures Valid()
      ensures isMobileMenuOpen == old(isMobileMenuOpen)
      ensures activeCategory == category
      ensures searchQuery == old(searchQuery) && compareList == old(compareList)
      ensures likedTools == old(likedTools) && toasts == old(toasts)
      ensures showConsultant == old(showConsultant) && showMatchmaker == old(showMatchmaker)
      ensures showCompare == old(showCompare) && showNewsletter == old(showNewsletter)
    {
      activeCategory := category;
    }

    /** The effect that runs when the `category` query parameter changes. */
    method ApplyCategoryParam(param: Option<string>)
      modifies this
      requires Valid()
      ensures Valid()
      ensures isMobileMenuOpen == old(isMobileMenuOpen)
      ensures activeCategory == CategoryFromParam(param, old(activeCategory))
      ensures searchQuery == old(searchQuery) && compareList == old(compareList)
      ensures likedTools == old(likedTools) && toasts == old(toasts)
      ensures showConsultant == old(showConsultant) && showMatchmaker == old(showMatchmaker)
      ensures showCompare == old(showCompare) && showNewsletter == old(showNewsletter)
    {
      if param.Some? && param.value != "" {
        if param.value in ValidCategories {
          activeCategory := param.value;
        }
      }
    }

    /** `addToast`, raised at time `now`. */
    method AddToast(now: int, title: string, message: string)
      modifies this
      requires Valid()
      ensures Valid()
      ensures isMobileMenuOpen == old(isMobileMenuOpen)
      ensures toasts == AddedToast(old(toasts), now, title, message)
      ensures searchQuery == old(searchQuery) && activeCategory == old(activeCategory)
      ensures likedTools == old(likedTools) && compareList == old(compareList)
      ensures showConsultant == old(showConsultant) && showMatchmaker == old(showMatchmaker)
      ensures showCompare == old(showCompare) && showNewsletter == old(showNewsletter)
    {
      toasts := toasts + [Toast(now, title, message)];
    }

    /** `removeToast`, also what the four-second timer of `addToast` runs. */
    method RemoveToast(id: int)
      modifies this
      requires Valid()
      ensures Valid()
      ensures isMobileMenuOpen == old(isMobileMenuOpen)
      ensures toasts == RemovedToast(old(toasts), id)
      ensures searchQuery == old(searchQuery) && activeCategory == old(activeCategory)
      ensures likedTools == old(likedTools) && compareList == old(compareList)
      ensures showConsultant == old(showConsultant) && showMatchmaker == old(showMatchmaker)
      ensures showCompare == old(showCompare) && showNewsletter == old(showNewsletter)
    {
      toasts := Filter(toasts, (t: Toast) => t.id != id);
    }

    /** `toggleLike`. */
    method ToggleLike(id: int)
      modifies this
      requires Valid()
      ensures Valid()
      ensures isMobileMenuOpen == old(isMobileMenuOpen)
      ensures likedTools == ToggledLike(old(likedTools), id)
      ensures searchQuery == old(searchQuery) && activeCategory == old(activeCategory)
      ensures compareList == old(compareList) && toasts == old(toasts)
      ensures showConsultant == old(showConsultant) && showMatchmaker == old(showMatchmaker)
      ensures showCompare == old(showCompare) && showNewsletter == old(showNewsletter)
    {
      if id in likedTools {
        likedTools := likedTools - {id};
      } else {
        likedTools := likedTools + {id};
      }
    }

    /** `handleCompareSelect` at time `now`; the updater raises the
        "Max 2 Tools" toast when the selection is full. */
    method HandleCompareSelect(id: int, now: int)
      modifies this
      requires Valid()
      ensures Valid()
      ensures isMobileMenuOpen == old(isMobileMenuOpen)
      ensures compareList == CompareSelect(old(compareList), id).list
      ensures toasts == if CompareSelect(old(compareList), id).full
        then AddedToast(old(toasts), now, "Max 2 Tools", "Select 2 tools to compare.")
        else old(toasts)
      ensures searchQuery == old(searchQuery) && activeCategory == old(activeCategory)
      ensures likedTools == old(likedTools)
      ensures showConsultant == old(showConsultant) && showMatchmaker == old(showMatchmaker)
      ensures showCompare == old(showCompare) && showNewsletter == old(showNewsletter)
    {
      CompareSelectKeepsLimit(compareList, id);
      if id in compareList {
        compareList := Filter(compareList, (x: int) => x != id);
      } else if |compareList| >= 2 {
        toasts := toasts + [Toast(now, "Max 2 Tools", "Select 2 tools to compare.")];
      } else {
        compareList := compareList + [id];
      }
    }

    /** The compare bar's "Compare" button, shown only with two selected. */
    method OpenCompare()
      modifies this
      requires Valid()
      requires |compareList| == 2
      ensures Valid()
      ensures isMobileMenuOpen == old(isMobileMenuOpen)
      ensures showCompare
      ensures searchQuery == old(searchQuery) && activeCategory == old(activeCategory)
      ensures likedTools == old(likedTools) && compareList == old(compareList) && toasts == old(toasts)
      ensures showConsultant == old(showConsultant) && showMatchmaker == old(showMatchmaker)
      ensures showNewsletter == old(showNewsletter)
    {
      showCompare := true;
    }

    /** The compare bar's clear button. */
    method ClearCompare()
      modifies this
      requires Valid()
      ensures Valid()
      ensures isMobileMenuOpen == old(isMobileMenuOpen)
      ensures compareList == []
      ensures searchQuery == old(searchQuery) && activeCategory == old(activeCategory)
      ensures likedTools == old(likedTools) && toasts == old(toasts)
      ensures showConsultant == old(showConsultant) && showMatchmaker == old(showMatchmaker)
      ensures showCompare == old(showCompare) && showNewsletter == old(showNewsletter)
    {
      compareList := [];
    }

    /** The `keydown` listener: Escape closes the four modals, any other
        key does nothing. */
    method KeyDown(key: string)
      modifies this
      requires Valid()
      ensures Valid()
      ensures isMobileMenuOpen == old(isMobileMenuOpen)
      ensures key == "Escape" ==> !showConsultant && !showMatchmaker && !showCompare && !showNewsletter
      ensures key != "Escape" ==>
        showConsultant == old(showConsultant) && showMatchmaker == old(showMatchmaker) &&
        showCompare == old(showCompare) && showNewsletter == old(showNewsletter)
      ensures searchQuery == old(searchQuery) && activeCategory == old(activeCategory)
      ensures likedTools == old(likedTools) && compareList == old(compareList) && toasts == old(toasts)
    {
      if key == "Escape" {
        showConsultant, showMatchmaker, showCompare, showNewsletter := false, false, false, false;
      }
    }

    /** The tools the directory shows for the current tab and search. */
    function Directory(tools: seq<Tool>): (r: seq<Tool>)
      reads this
      ensures forall t :: t in r ==> t in ToolsByCategory(tools, activeCategory)
    {
      FilterWithinCategory(tools, activeCategory, searchQuery);
      FilteredTools(tools, activeCategory, searchQuery)
    }
  }
}
