/** The project grid: the category filter over the catalog, hover preloading of
    neighbouring videos, and the click that opens a project either in a
    full-screen overlay (narrow viewports) or on its own route. */
module ProjectGrid {

  import opened Wrappers
  import opened Text
  import opened Projects
  import Vimeo
  import ScrollMemory

  /** Widths at or below this many CSS pixels count as mobile. */
  const MobileMaxWidth: int := 768

  /** What the click handler reads from `window` when it exists. */
  datatype Viewport = Viewport(innerWidth: int, scrollY: int)

  /** The parts of the page the grid's handlers change: the session store, the
      overlay containers appended to the body (each by its iframe `src`), and
      the prefetch links appended to the head (each by its `href`). */
  datatype Page = Page(session: ScrollMemory.Store, overlays: seq<string>, prefetchLinks: seq<string>)

  /** The outcome of a click: the page after it and the route pushed, if any. */
  datatype Clicked = Clicked(page: Page, pushed: Option<string>)

  // ---- filter ----------------------------------------------------------------

  /** The projects of `projects` in category `tag`, in catalog order. */
  function Select(projects: seq<Project>, tag: string): (r: seq<Project>)
    ensures |r| <= |projects|
  {
    if |projects| == 0 then []
    else
      var last := projects[|projects| - 1];
      Select(projects[..|projects| - 1], tag) + (if InCategory(last, tag) then [last] else [])
  }

  /** A project is kept iff it is in the catalog and in the category. */
  lemma {:induction false} SelectMembership(projects: seq<Project>, tag: string)
    ensures forall p :: p in Select(projects, tag) <==> p in projects && InCategory(p, tag)
  {
    if |projects| > 0 {
      var n := |projects| - 1;
      SelectMembership(projects[..n], tag);
      assert projects == projects[..n] + [projects[n]];
    }
  }

  /** The grid's visible list: the whole catalog unless the active filter is truthy. */
  function Visible(projects: seq<Project>, activeFilter: Option<string>): (r: seq<Project>)
    ensures !Truthy(activeFilter) ==> r == projects
    ensures Truthy(activeFilter) ==> r == Select(projects, activeFilter.value)
    ensures Truthy(activeFilter) ==> forall p :: p in r <==> p in projects && InCategory(p, activeFilter.value)
  {
    if Truthy(activeFilter) then
      SelectMembership(projects, activeFilter.value);
      Select(projects, activeFilter.value)
    else projects
  }

  ghost predicate StrictlyIncreasing(xs: seq<nat>) {
    forall i, j :: 0 <= i < j < |xs| ==> xs[i] < xs[j]
  }

  /** The positions of `projects` whose project is in category `tag`, ascending:
      an independent description of which entries the filter keeps. */
  function MatchingPositions(projects: seq<Project>, tag: string): (idx: seq<nat>)
    ensures StrictlyIncreasing(idx)
    ensures forall k :: 0 <= k < |idx| ==> idx[k] < |projects|
    ensures forall i :: 0 <= i < |projects| ==> (i in idx <==> InCategory(projects[i], tag))
  {
    if |projects| == 0 then []
    else
      var n := |projects| - 1;
      MatchingPositions(projects[..n], tag) + (if InCategory(projects[n], tag) then [n] else [])
  }

  /** `r` lists the entries of `s` at positions `idx`, in that order. */
  ghost predicate PicksAt(r: seq<Project>, s: seq<Project>, idx: seq<nat>) {
    |r| == |idx| && forall k :: 0 <= k < |idx| ==> idx[k] < |s| && r[k] == s[idx[k]]
  }

  /** The filter is the order-preserving subsequence at exactly the matching positions. */
  lemma {:induction false} SelectPicksMatchingPositions(projects: seq<Project>, tag: string)
    ensures PicksAt(Select(projects, tag), projects, MatchingPositions(projects, tag))
  {
    if |projects| > 0 {
      var n := |projects| - 1;
      var front := projects[..n];
      SelectPicksMatchingPositions(front, tag);
      var r0, idx0 := Select(front, tag), MatchingPositions(front, tag);
      var tail := if InCategory(projects[n], tag) then [projects[n]] else [];
      var tailIdx: seq<nat> := if InCategory(projects[n], tag) then [n] else [];
      assert Select(projects, tag) == r0 + tail;
      assert MatchingPositions(projects, tag) == idx0 + tailIdx;
      var r, idx := r0 + tail, idx0 + tailIdx;
      forall k | 0 <= k < |idx|
        ensures idx[k] < |projects| && r[k] == projects[idx[k]]
      {
        if k < |idx0| {
          assert r[k] == r0[k] == front[idx0[k]];
        }
      }
    }
  }

  /** Filtering twice by the same tag is filtering once. */
  lemma {:induction false} SelectIdempotent(projects: seq<Project>, tag: string)
    ensures Select(Select(projects, tag), tag) == Select(projects, tag)
  {
    if |projects| > 0 {
      var n := |projects| - 1;
      var front := Select(projects[..n], tag);
      SelectIdempotent(projects[..n], tag);
      if InCategory(projects[n], tag) {
        var r := front + [projects[n]];
        assert r[..|r| - 1] == front;
      } else {
        assert Select(projects, tag) == front;
      }
    }
  }

  /** A tag that names no category selects nothing. */
  lemma SelectUnknownTagIsEmpty(projects: seq<Project>, tag: string)
    requires forall c: Category :: CategoryName(c) != tag
    ensures Select(projects, tag) == []
  {
  }

  /** A project without categories is never visible under a filter. */
  lemma UncategorisedNeverSelected(projects: seq<Project>, tag: string, p: Project)
    requires p.categories.None?
    ensures p !in Select(projects, tag)
  {
  }

  // ---- hover preloading ------------------------------------------------------

  /** The indices preloaded when the pointer enters card `index`: the previous
      card, then the next one, each only when it exists and has a video. */
  function PreloadedNeighbours(visible: seq<Project>, index: int): (r: seq<int>)
    ensures |r| <= 2
    ensures forall k :: 0 <= k < |r| ==> 0 <= r[k] < |visible| && (r[k] == index - 1 || r[k] == index + 1)
    ensures forall j :: 0 <= j < |visible| ==>
              (j in r <==> (j == index - 1 || j == index + 1) && HasVideo(visible[j]))
    ensures |r| == 2 ==> r[0] < r[1]
  {
    (if index > 0 && index - 1 < |visible| && HasVideo(visible[index - 1]) then [index - 1] else [])
    + (if index < |visible| - 1 && 0 <= index + 1 && HasVideo(visible[index + 1]) then [index + 1] else [])
  }

  /** The prefetch `href`s added when the pointer enters card `index`, in order. */
  function HoverPrefetches(visible: seq<Project>, index: int): (r: seq<string>)
    ensures var idx := PreloadedNeighbours(visible, index);
            |r| == |idx| && forall k :: 0 <= k < |r| ==> r[k] == Vimeo.PrefetchUrl(VideoId(visible[idx[k]]))
  {
    var idx := PreloadedNeighbours(visible, index);
    seq(|idx|, k requires 0 <= k < |idx| => Vimeo.PrefetchUrl(VideoId(visible[idx[k]])))
  }

  /** The pointer enters card `index`: the hints are appended to the head. */
  function MouseEnter(page: Page, visible: seq<Project>, index: int): (r: Page)
    ensures r.session == page.session && r.overlays == page.overlays
    ensures |page.prefetchLinks| <= |r.prefetchLinks| <= |page.prefetchLinks| + 2
    ensures r.prefetchLinks[..|page.prefetchLinks|] == page.prefetchLinks
    ensures r.prefetchLinks == page.prefetchLinks + HoverPrefetches(visible, index)
    ensures forall u :: u in r.prefetchLinks[|page.prefetchLinks|..] ==>
              exists j :: 0 <= j < |visible| && (j == index - 1 || j == index + 1)
                          && HasVideo(visible[j]) && u == Vimeo.PrefetchUrl(VideoId(visible[j]))
    ensures forall j :: 0 <= j < |visible| && (j == index - 1 || j == index + 1) && HasVideo(visible[j]) ==>
              Vimeo.PrefetchUrl(VideoId(visible[j])) in r.prefetchLinks[|page.prefetchLinks|..]
  {
    var added := HoverPrefetches(visible, index);
    var idx := PreloadedNeighbours(visible, index);
    forall u | u in added
      ensures exists j :: 0 <= j < |visible| && (j == index - 1 || j == index + 1)
                          && HasVideo(visible[j]) && u == Vimeo.PrefetchUrl(VideoId(visible[j]))
    {
      PrefetchesAreNeighbourVideos(visible, index, u);
    }
    forall j | 0 <= j < |visible| && (j == index - 1 || j == index + 1) && HasVideo(visible[j])
      ensures Vimeo.PrefetchUrl(VideoId(visible[j])) in added
    {
      var k :| 0 <= k < |idx| && idx[k] == j;
      assert added[k] == Vimeo.PrefetchUrl(VideoId(visible[j]));
    }
    var links := page.prefetchLinks + added;
    assert links[|page.prefetchLinks|..] == added;
    page.(prefetchLinks := links)
  }

  /** Every hint names a neighbour's video; none wraps around the ends of the list. */
  lemma PrefetchesAreNeighbourVideos(visible: seq<Project>, index: int, url: string)
    requires url in HoverPrefetches(visible, index)
    ensures exists j :: 0 <= j < |visible| && (j == index - 1 || j == index + 1)
                        && HasVideo(visible[j]) && url == Vimeo.PrefetchUrl(VideoId(visible[j]))
  {
  }

  // ---- click -----------------------------------------------------------------

  /** The click takes the overlay path: a window exists, it is at most
      `MobileMaxWidth` wide, and the project has a video. */
  predicate OpensOverlay(window: Option<Viewport>, p: Project)
    ensures window.None? || window.value.innerWidth > MobileMaxWidth ==> !OpensOverlay(window, p)
    ensures window.Some? && window.value.innerWidth <= MobileMaxWidth ==> (OpensOverlay(window, p) <==> HasVideo(p))
  {
    window.Some? && window.value.innerWidth <= MobileMaxWidth && HasVideo(p)
  }

  function WorkRoute(id: string): (path: string)
    ensures HasPrefix(path, "/work/") && path[6..] == id
  {
    "/work/" + id
  }

  /** A click on a project card: save the scroll position (when a window
      exists), then either append a full-screen overlay playing the video or
      push the project's route. */
  function Click(page: Page, window: Option<Viewport>, p: Project): (r: Clicked)
    ensures window.Some? ==> r.page.session == ScrollMemory.Save(page.session, window.value.scrollY)
    ensures window.None? ==> r.page.session == page.session
    ensures r.page.prefetchLinks == page.prefetchLinks
    ensures OpensOverlay(window, p) <==> r.pushed.None?
    ensures OpensOverlay(window, p) ==> r.page.overlays == page.overlays + [Vimeo.OverlaySrc(VideoId(p))]
    ensures !OpensOverlay(window, p) ==> r.page.overlays == page.overlays && r.pushed == Some(WorkRoute(p.id))
  {
    var session := if window.Some? then ScrollMemory.Save(page.session, window.value.scrollY) else page.session;
    if OpensOverlay(window, p) then
      Clicked(page.(session := session, overlays := page.overlays + [Vimeo.OverlaySrc(VideoId(p))]), None)
    else
      Clicked(page.(session := session), Some(WorkRoute(p.id)))
  }

  /** The overlay path never reads the access hash. */
  lemma ClickIgnoresHash(page: Page, window: Option<Viewport>, p: Project, hash: Option<string>)
    ensures Click(page, window, p) == Click(page, window, p.(vimeoHash := hash))
  {
  }

  /** The close button of overlay `k` removes that container and no other. */
  function CloseOverlay(page: Page, k: nat): (r: Page)
    requires k < |page.overlays|
    ensures |r.overlays| == |page.overlays| - 1
    ensures forall i :: 0 <= i < k ==> r.overlays[i] == page.overlays[i]
    ensures forall i :: k <= i < |r.overlays| ==> r.overlays[i] == page.overlays[i + 1]
    ensures r.session == page.session && r.prefetchLinks == page.prefetchLinks
  {
    page.(overlays := page.overlays[..k] + page.overlays[k + 1..])
  }

  /** Closing the overlay a click just opened leaves the overlays as before the click. */
  lemma OpenThenCloseOverlay(page: Page, window: Option<Viewport>, p: Project)
    requires OpensOverlay(window, p)
    ensures var after := Click(page, window, p).page;
            CloseOverlay(after, |after.overlays| - 1).overlays == page.overlays
  {
  }

  /** Nothing stops a second overlay opening over the first: two clicks attach two. */
  lemma TwoClicksStackTwoOverlays(page: Page, window: Option<Viewport>, p: Project, q: Project)
    requires OpensOverlay(window, p) && OpensOverlay(window, q)
    ensures |Click(Click(page, window, p).page, window, q).page.overlays| == |page.overlays| + 2
  {
  }

  // ---- worked examples ---------------------------------------------------------

  /** Filtering a two-project catalog by "producer" keeps only the producer project. */
  lemma FilterExample()
    ensures var a := Project("a", "A", "", "", Some([Director]), None, None);
            var b := Project("b", "B", "", "", Some([Producer]), None, None);
            Visible([a, b], Some("producer")) == [b]
  {
  }

  /** A wide viewport routes to the project page even when the project has a video. */
  lemma WideClickExample(page: Page)
    ensures var p := Project("x", "X", "", "", None, Some("123"), None);
            var r := Click(page, Some(Viewport(1024, 0)), p);
            r.pushed == Some("/work/x") && r.page.overlays == page.overlays
  {
    assert WorkRoute("x") == "/work/x";
  }
}
