# Portfolio site: grid, navigation and modal rules in Dafny

This project models the small decision and string-building core of a film
director's portfolio website. The rest of that site is presentation: markup,
CSS modules, images, metadata and page copy. Three React components hold all
the logic there is:

- the **project grid** (`components/ProjectGrid.tsx`). It filters the catalog by
  the active category. It prefetches the player pages of the cards next to the
  hovered one. On a click it saves the scroll position, then either attaches a
  full-screen video overlay (viewport at most 768 pixels wide, project has a
  video) or pushes the project's route `/work/<id>`.
- the **navigation bar** (`components/Navigation.tsx`). Its filter buttons
  toggle the `filter` query parameter. It marks the active filter button and
  the active WORK/ABOUT link, and it keeps the menu-open and hover flags.
- the **project modal** (`components/ProjectModal.tsx`). It renders a project
  and builds the player iframe URL, with or without the access hash. It closes
  through `onClose` or by going home, on the close button, a backdrop click or
  Escape. After closing it restores the saved scroll position once.

The browser is replaced by plain values. The viewport is a `Viewport(innerWidth,
scrollY)` input, or `None` where `window` does not exist. `sessionStorage` is a
`map<string, string>`. Router pushes are returned as values. The nodes the grid
appends to the page are kept as sequences of their URLs. JavaScript truthiness
is written out: an optional string is truthy iff it is present and non-empty.
This rule applies to the active filter, the video id, the access hash and the
saved scroll position.

Modules, one per concept:

- `Wrappers` (`wrappers.dfy`): `Option`.
- `Text` (`text.dfy`): prefixes, substrings, and the decimal form of integers.
  `ShowInt` is what `toString` writes and `ParseInt` reads it back. Their round
  trip is proved.
- `Projects` (`projects.dfy`): the `Category` enumeration, the `Project` record
  and the truthiness tests.
- `Vimeo` (`vimeo.dfy`): the prefetch, overlay and modal player URLs.
- `ScrollMemory` (`scroll_memory.dfy`): saving and restoring the scroll position.
- `ProjectGrid`, `Navigation`, `ProjectModal`: the three components.

The grid's overlay has no load watchdog and no error fallback. It has no swipe,
history or Escape dismissal: only its close button removes it. There is no
wrap-around navigation between projects. A second narrow-viewport click
attaches a second container over the first
(`ProjectGrid.TwoClicksStackTwoOverlays`).

## Model

| member | source | states |
|---|---|---|
| ProjectGrid.Visible | components/ProjectGrid.tsx:17-19 | With no active filter, or an empty one, the visible list is the catalog unchanged. With a truthy filter, the visible list is the filtered list `Select`, whose order `SelectPicksMatchingPositions` fixes: a project is visible iff it is in the catalog and its categories include the tag. |
| ProjectGrid.Select | components/ProjectGrid.tsx:18 | The filtered list is never longer than the catalog. Its meaning is fixed by `SelectMembership` (which projects are kept) and `SelectPicksMatchingPositions` (in which order). |
| ProjectGrid.SelectMembership | components/ProjectGrid.tsx:18 | The filtered list contains a project iff the catalog does and that project's categories are present and include the tag. |
| ProjectGrid.MatchingPositions | components/ProjectGrid.tsx:18 | The catalog positions whose project is in the category, strictly ascending and in bounds. A position is listed iff its project matches. |
| ProjectGrid.SelectPicksMatchingPositions | components/ProjectGrid.tsx:17-18 | The filter is the order-preserving subsequence taken at exactly the matching positions: the k-th result is the project at the k-th matching position. |
| ProjectGrid.SelectIdempotent | components/ProjectGrid.tsx:18 | Filtering an already filtered list by the same tag changes nothing. |
| ProjectGrid.SelectUnknownTagIsEmpty | components/ProjectGrid.tsx:18 | A tag that names no category yields an empty grid. |
| ProjectGrid.UncategorisedNeverSelected | components/ProjectGrid.tsx:18 | A project without categories is never in a filtered grid. |
| Projects.InCategory | components/ProjectGrid.tsx:18 | A project without categories is in no category. When a project is in category `tag`, one of its categories is written `tag`. `InCategoryIsIncludes` gives the converse. |
| Projects.InCategoryIsIncludes | components/ProjectGrid.tsx:18 | A project is in category `tag` iff its categories are present and one of them is written `tag`, which is what `includes` tests. |
| Projects.CategoryOfNameInverse | components/ProjectGrid.tsx:18 | Each category is found again from its name, and the only tags that name a category are director, producer, narrative and commercial. |
| ProjectGrid.FilterExample | components/ProjectGrid.tsx:17-19 | Filtering a director project and a producer project by "producer" keeps only the producer project. |
| ProjectGrid.PreloadedNeighbours | components/ProjectGrid.tsx:30-41 | Hovering card i preloads at most two cards, previous before next. Card j is preloaded iff j is i-1 or i+1, j is in bounds and card j has a non-empty video id. There is no wrap-around. |
| ProjectGrid.HoverPrefetches | components/ProjectGrid.tsx:32-39 | One prefetch hint per preloaded neighbour, in the same order, each the player URL of that neighbour's video. |
| ProjectGrid.PrefetchesAreNeighbourVideos | components/ProjectGrid.tsx:30-41 | Every hint added on hover names the video of an immediate in-bounds neighbour that has a video. |
| ProjectGrid.MouseEnter | components/ProjectGrid.tsx:22-41 | Hovering appends the hover prefetches, in order, after the existing hints: at most two. Every new hint is a neighbour's video URL, and every in-bounds neighbour with a video gets one. Neither the session store nor the overlays change. |
| Vimeo.PrefetchUrl | components/ProjectGrid.tsx:25 | The prefetch URL starts with the player base `https://player.vimeo.com/video/`, and what follows the base is exactly the video id. |
| Vimeo.PrefetchUrlRoundTrip | components/ProjectGrid.tsx:22-25 | The prefetch URL is the player base followed by the video id, and the id reads back from it unchanged. |
| Vimeo.PrefetchUrlInjective | components/ProjectGrid.tsx:25 | Different video ids give different prefetch URLs. |
| Vimeo.OverlaySrc | components/ProjectGrid.tsx:69 | The overlay iframe src is the prefetch URL, then `?`, then exactly the fixed autoplay/fullscreen query. |
| ProjectGrid.OpensOverlay | components/ProjectGrid.tsx:49-51 | With no window, or a window wider than 768, a click never takes the overlay path. With a window at most 768 wide, it takes it iff the video id is non-empty. |
| ProjectGrid.WorkRoute | components/ProjectGrid.tsx:109 | The route pushed is `/work/` followed by the project id, which reads back from it. |
| ProjectGrid.Click | components/ProjectGrid.tsx:43-111 | When a window exists, a click saves the scroll position, which reads back as the same integer. It opens an overlay iff the width is at most 768 and the video id is non-empty. In that case it appends exactly one overlay with that video's src and pushes nothing. Otherwise it pushes exactly `/work/<id>` and attaches nothing. Prefetch hints are untouched. |
| ProjectGrid.ClickIgnoresHash | components/ProjectGrid.tsx:69 | The click's outcome does not depend on the access hash. |
| ProjectGrid.WideClickExample | components/ProjectGrid.tsx:49-110 | At width 1024 a project with video "123" pushes `/work/<id>` and attaches no overlay. |
| ProjectGrid.CloseOverlay | components/ProjectGrid.tsx:95-99 | An overlay's close button removes exactly its own container. The other containers keep their order, and the store and hints are untouched. |
| ProjectGrid.OpenThenCloseOverlay | components/ProjectGrid.tsx:95-99 | Closing the overlay a click just attached restores the overlays to what they were before the click. |
| ProjectGrid.TwoClicksStackTwoOverlays | components/ProjectGrid.tsx:97-99 | Nothing guards against an overlay already being shown: two narrow-viewport clicks attach two containers. |
| Text.ShowInt | components/ProjectGrid.tsx:46 | `toString` of an integer is canonical: an optional minus sign, then digits without leading zeros, and never `-0`. It starts with `-` iff the integer is negative. |
| Text.ParseInt | components/ProjectModal.tsx:33 | A string reads as an integer iff it is digits, optionally after one minus sign. A negative result comes only from a string that starts with `-`. |
| Text.ShowParseInt | components/ProjectModal.tsx:33 | The converse round trip: a canonical string reads as an integer whose `toString` is that same string. |
| Text.ParseShowInt | components/ProjectModal.tsx:33 | Reading back the decimal string the grid stored yields the original integer, negative values included. |
| ScrollMemory.Save | components/ProjectGrid.tsx:45-47 | After saving, `scrollPosition` holds a string that parses to the scroll offset. Every other key is unchanged. |
| ScrollMemory.Restore | components/ProjectModal.tsx:30-36 | A restore scrolls iff `scrollPosition` is present and non-empty. In that case it scrolls to its integer value when it parses, and deletes the key. Otherwise the store is unchanged. |
| ScrollMemory.SaveThenRestore | components/ProjectModal.tsx:30-36 | A restore after a save scrolls to exactly the saved offset. It leaves the store as before, less the key. |
| ScrollMemory.RestoreTwiceIsRestoreOnce | components/ProjectModal.tsx:31-35 | A second restore makes no scroll call and leaves the store unchanged. |
| Navigation.FilterUrl | components/Navigation.tsx:20 | A filter URL is `/?filter=` followed by the tag. |
| Navigation.FilterParam | components/Navigation.tsx:12 | The `filter` parameter read from a URL, when one is found, is the tag the URL was built from. |
| Navigation.FilterClickTarget | components/Navigation.tsx:16-22 | The click pushes `/` iff the clicked tag is the active filter. For any other tag it pushes exactly `/?filter=<tag>`. The filter read back from the pushed URL is the toggled one: cleared if it was active, otherwise the clicked tag. |
| Navigation.ClickSameTagTwiceReturnsHome | components/Navigation.tsx:12-22 | Starting unfiltered, a first click pushes `/?filter=<tag>`. With the filter read back from that URL, a second click on the same tag pushes `/`. |
| Navigation.HomeIsUnfiltered | components/Navigation.tsx:12 | The home URL carries no filter. |
| Navigation.CategoryNamesArePlain | components/Navigation.tsx:47-65 | The four button tags contain no character a query-string reader would split or decode. |
| Navigation.ActiveFilterButtons | components/Navigation.tsx:47-65 | Button i is active iff the active filter equals its tag. At most one button is active, and none is when there is no filter. |
| Navigation.LinkActive | components/Navigation.tsx:73-99 | A WORK or ABOUT link, in the bar or the mobile menu, is active iff the pathname is its destination (`/` or `/about`). |
| Navigation.AtMostOneLinkActive | components/Navigation.tsx:73-80 | WORK and ABOUT are never both active. |
| Navigation.Step | components/Navigation.tsx:33-99 | The menu button flips the menu and leaves the rest. A mobile link closes the menu and goes to its destination. Pointer enter and leave show and hide the filter row. A filter button changes no flag and pushes exactly `FilterClickTarget` of the active filter and its tag: `/` iff that tag is the active filter, otherwise `/?filter=<tag>`. The filter read back from the pushed URL is the toggled one. |
| Navigation.MenuButtonTwice | components/Navigation.tsx:33 | Two presses of the menu button restore the menu state. |
| ProjectModal.HandleClose | components/ProjectModal.tsx:21-37 | Exactly one of two actions happens: `onClose` when supplied, otherwise a push of `/`. Then the saved position is restored exactly as `Restore` does: a scroll to its parsed value iff it is present and non-empty, and that key is removed. |
| ProjectModal.SecondCloseRestoresNothing | components/ProjectModal.tsx:30-36 | A second close finds no saved position and changes nothing in the store. |
| ProjectModal.HandleKeyDown | components/ProjectModal.tsx:40-49 | A key closes the modal iff it is `Escape`. Every other key has no effect. |
| ProjectModal.CloseCalls | components/ProjectModal.tsx:65-67 | Only the close handlers met before propagation stops run, and there are at most as many as handlers on the path. |
| ProjectModal.ClickClosesAtMostOnce | components/ProjectModal.tsx:65-67 | A backdrop click or a close-button click runs the close handler exactly once. A click inside the content runs it zero times, because the content box stops propagation. |
| ProjectModal.ModalClick | components/ProjectModal.tsx:65-67 | A click closes the modal iff it lands on the backdrop or on the close button. A click anywhere else in the content box does not close it. In both closing cases the effect is exactly `HandleClose`. |
| ProjectModal.Render | components/ProjectModal.tsx:61-79 | Nothing is rendered iff the project is null. The title, the role (the `type` field) and the subtitle are shown in their own places. An iframe is rendered iff the video id is non-empty, and its src is the modal player URL built from the id and hash. |
| ProjectModal.RenderDependsOnHashIffTruthy | components/ProjectModal.tsx:73-79 | For a project with a video, changing the hash changes the rendered modal iff the hash is truthy. |
| ProjectModal.EveryDismissalRunsHandleClose | components/ProjectModal.tsx:40-67 | Escape, a backdrop click and a close-button click all produce the same close effect. |
| ProjectModal.EscapeClosesWithoutProject | components/ProjectModal.tsx:40-61 | With no project nothing is rendered, yet Escape still closes, because the keydown listener is registered before the null guard. |
| Vimeo.ModalEmbedSrc | components/ProjectModal.tsx:76-79 | With a truthy hash the query is `h=<hash>&` followed by the fixed flags. Otherwise it is the flags alone. Both variants follow the player base and the id. |
| Vimeo.ModalHashSegmentIsTheOnlyDifference | components/ProjectModal.tsx:76-78 | The hashed src is the unhashed one with `h=<hash>&` inserted directly after `?`. |
| Vimeo.ModalEmptyHashIsNoHash | components/ProjectModal.tsx:76 | An empty hash gives the same src as a missing one. |
| Vimeo.ModalPlaybackFlagsLiteral | components/ProjectModal.tsx:77-78 | The playback flags, joined with `&`, are exactly `autoplay=1&muted=1&title=0&byline=0&portrait=0`, as in the source templates. |
| Text.JoinParamsContainsEach | components/ProjectModal.tsx:77-78 | Every parameter of an `&`-joined query occurs in it. |
| Vimeo.ModalSrcHasRequiredFlags | components/ProjectModal.tsx:77-78 | Both variants contain `autoplay=1`, `muted=1`, `title=0`, `byline=0` and `portrait=0`. |
| ProjectModal.RoutedOpenThenCloseRestoresScroll | components/ProjectModal.tsx:21-36 | A wide-viewport click from the grid pushes `/work/<id>`. Closing the routed modal (no `onClose`) then pushes `/` and scrolls back to the offset saved at the click. |

## Left out

- Rendering: JSX, CSS modules, `next/image`, inline style strings, the close button's glyph, and the body `overflow` style the modal sets on direct access (components/ProjectModal.tsx:51-59). All of it is presentation.
- Real DOM nodes: the overlay containers and prefetch links are kept only as sequences of their URLs. The iframe and link attributes other than the URL are not modelled.
- The 100 ms delays: the deferred `requestFullscreen` call is left out, because it is a best-effort browser side effect. The deferred scroll restore is modelled as running right after the close action.
- `window`, `sessionStorage` and the router: replaced by an optional viewport, a string map and returned route values.
- Text.ParseInt: reads only an optional minus sign followed by digits. A stored string of any other form gives `ScrollToUnparsed(raw)` instead of `parseInt`'s leading-digits or NaN result, because JavaScript's number parsing is a foreign call.
- Text.ShowInt: writes only integers. The scroll offset is taken to be an integer, so fractional offsets and JavaScript's exponent notation for huge numbers are not modelled.
- Navigation.FilterParam: reads the `filter` parameter only from URLs of the shape `/?filter=<tag>` whose tag has no `&`, `#`, `%` or `+`. Every other URL reads as unfiltered, where a browser would split or percent-decode it. The buttons only ever push such URLs.
- Link navigation on the logo and the desktop WORK/ABOUT links is left out. It belongs to the framework; the model covers the active-state predicates, and the mobile links, which close the menu and navigate to their destination.
- The `typeof window` guard is modelled as the viewport being `None`: no scroll save, and the route is pushed.
- app/layout.tsx, app/about/page.tsx and next.config.ts hold static metadata, page copy and header configuration. app/page.tsx and app/work/[slug]/page.tsx only pass the `filter` parameter or the project found by id to the components.
- The project catalog is not part of this model. Projects are a datatype with the fields the rules read.
