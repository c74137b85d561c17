/** The navigation bar: the category filter buttons and the rule that toggles
    the `filter` query parameter, the active-link markers, and the mobile-menu
    and hover flags. */
module Navigation {

  import opened Wrappers
  import opened Text
  import opened Projects

  /** The listing route the filter buttons push; the tag follows the prefix. */
  const FilterPrefix: string := "/?filter="

  function FilterUrl(tag: string): (url: string)
    ensures HasPrefix(url, FilterPrefix) && url[|FilterPrefix|..] == tag
  {
    FilterPrefix + tag
  }

  /** A tag holding none of the characters a query-string reader would split
      or decode, so that it reads back verbatim. */
  predicate PlainTag(tag: string) {
    forall i :: 0 <= i < |tag| ==> tag[i] !in "&#%+"
  }

  /** The value of the `filter` query parameter, read from URLs of the shape
      `/?filter=<plain tag>`; every other URL reads as unfiltered. */
  function FilterParam(url: string): (r: Option<string>)
    ensures r.Some? ==> url == FilterUrl(r.value)
  {
    if HasPrefix(url, FilterPrefix) && PlainTag(url[|FilterPrefix|..]) then Some(url[|FilterPrefix|..]) else None
  }

  /** The abstract two-state rule: choosing the active tag clears the filter,
      choosing any other tag selects it. */
  function ToggleFilter(activeFilter: Option<string>, tag: string): Option<string> {
    if activeFilter == Some(tag) then None else Some(tag)
  }

  /** The route a filter button pushes. */
  function FilterClickTarget(activeFilter: Option<string>, tag: string): (url: string)
    ensures url == "/" <==> activeFilter == Some(tag)
    ensures activeFilter != Some(tag) ==> url == FilterUrl(tag)
    ensures PlainTag(tag) ==> FilterParam(url) == ToggleFilter(activeFilter, tag)
  {
    if activeFilter == Some(tag) then "/" else FilterUrl(tag)
  }

  /** The buttons push only plain tags. */
  lemma CategoryNamesArePlain(c: Category)
    ensures PlainTag(CategoryName(c))
  {
  }

  /** Starting unfiltered, the same button twice leads back to `/`, the filter
      being read back from the pushed URL in between. */
  lemma ClickSameTagTwiceReturnsHome(tag: string)
    requires PlainTag(tag)
    ensures FilterClickTarget(None, tag) == FilterUrl(tag)
    ensures FilterClickTarget(FilterParam(FilterClickTarget(None, tag)), tag) == "/"
  {
  }

  /** The home route carries no filter. */
  lemma HomeIsUnfiltered()
    ensures FilterParam("/") == None
  {
  }

  /** The active markers of the four filter buttons, in display order. */
  function ActiveFilterButtons(activeFilter: Option<string>): (r: seq<bool>)
    ensures |r| == |AllCategories|
    ensures forall i :: 0 <= i < |r| ==> (r[i] <==> activeFilter == Some(CategoryName(AllCategories[i])))
    ensures forall i, j :: 0 <= i < j < |r| ==> !(r[i] && r[j])
    ensures activeFilter.None? ==> forall i :: 0 <= i < |r| ==> !r[i]
  {
    seq(|AllCategories|, i requires 0 <= i < |AllCategories| => activeFilter == Some(CategoryName(AllCategories[i])))
  }

  /** The destinations of the WORK and ABOUT links. */
  datatype Section = Work | About

  function SectionPath(s: Section): string {
    match s
    case Work => "/"
    case About => "/about"
  }

  /** A link is marked active iff the current pathname is its destination
      (the same rule in the bar and in the mobile menu). */
  function LinkActive(pathname: string, s: Section): (active: bool)
    ensures s == Work ==> (active <==> pathname == "/")
    ensures s == About ==> (active <==> pathname == "/about")
  {
    pathname == SectionPath(s)
  }

  lemma AtMostOneLinkActive(pathname: string)
    ensures !(LinkActive(pathname, Work) && LinkActive(pathname, About))
  {
  }

  /** The two flags the bar keeps. */
  datatype NavState = NavState(menuOpen: bool, workHovered: bool)

  /** User actions on the bar. A mobile link can be chosen only while the menu is open. */
  datatype NavEvent =
    | MenuButton
    | MobileLink(target: Section)
    | WorkPointerEnter
    | WorkPointerLeave
    | FilterButton(category: Category)

  predicate Enabled(s: NavState, e: NavEvent) {
    e.MobileLink? ==> s.menuOpen
  }

  /** The filter row is shown while the pointer is over the WORK container. */
  predicate FiltersVisible(s: NavState) {
    s.workHovered
  }

  datatype NavStep = NavStep(state: NavState, pushed: Option<string>)

  function Step(s: NavState, activeFilter: Option<string>, e: NavEvent): (r: NavStep)
    requires Enabled(s, e)
    ensures e.MenuButton? ==> r.state.menuOpen != s.menuOpen && r.state.workHovered == s.workHovered && r.pushed.None?
    ensures e.MobileLink? ==> !r.state.menuOpen && r.state.workHovered == s.workHovered
                              && r.pushed == Some(SectionPath(e.target))
    ensures e.WorkPointerEnter? ==> FiltersVisible(r.state) && r.state.menuOpen == s.menuOpen && r.pushed.None?
    ensures e.WorkPointerLeave? ==> !FiltersVisible(r.state) && r.state.menuOpen == s.menuOpen && r.pushed.None?
    ensures e.FilterButton? ==> r.state == s && r.pushed == Some(FilterClickTarget(activeFilter, CategoryName(e.category)))
    ensures e.FilterButton? ==> (r.pushed == Some("/") <==> activeFilter == Some(CategoryName(e.category)))
    ensures e.FilterButton? ==> FilterParam(r.pushed.value) == ToggleFilter(activeFilter, CategoryName(e.category))
  {
    match e
    case MenuButton => NavStep(s.(menuOpen := !s.menuOpen), None)
    case MobileLink(target) => NavStep(s.(menuOpen := false), Some(SectionPath(target)))
    case WorkPointerEnter => NavStep(s.(workHovered := true), None)
    case WorkPointerLeave => NavStep(s.(workHovered := false), None)
    case FilterButton(c) =>
      CategoryNamesArePlain(c);
      NavStep(s, Some(FilterClickTarget(activeFilter, CategoryName(c))))
  }

  /** Pressing the menu button twice restores the menu. */
  lemma MenuButtonTwice(s: NavState, activeFilter: Option<string>)
    ensures Step(Step(s, activeFilter, MenuButton).state, activeFilter, MenuButton).state == s
  {
  }
}
