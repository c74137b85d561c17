/** The project modal: what it renders for a project, the iframe it embeds,
    and the ways it closes (close button, backdrop click, Escape), each
    followed by the deferred scroll restore. */
module ProjectModal {

  import opened Wrappers
  import opened Projects
  import Vimeo
  import ScrollMemory
  import ProjectGrid

  /** What closing does first: the caller's `onClose` when one was supplied,
      otherwise a push of a route. */
  datatype CloseAction = InvokeOnClose | PushRoute(path: string)

  /** The effect of one close: the action, then (after the delay) the restore. */
  datatype Closed = Closed(action: CloseAction, restored: ScrollMemory.Restored)

  function HandleClose(hasOnClose: bool, session: ScrollMemory.Store): (r: Closed)
    ensures r.action.InvokeOnClose? <==> hasOnClose
    ensures !hasOnClose ==> r.action == PushRoute("/")
    ensures r.restored.scroll.Some? <==>
              ScrollMemory.ScrollKey in session && session[ScrollMemory.ScrollKey] != ""
    ensures r.restored == ScrollMemory.Restore(session)
    ensures r.restored.scroll.Some? ==> r.restored.store == session - {ScrollMemory.ScrollKey}
    ensures r.restored.scroll.None? ==> r.restored.store == session
  {
    var action := if hasOnClose then InvokeOnClose else PushRoute("/");
    Closed(action, ScrollMemory.Restore(session))
  }

  /** Closing twice: the second close finds nothing to restore. */
  lemma SecondCloseRestoresNothing(hasOnClose: bool, session: ScrollMemory.Store)
    ensures var first := HandleClose(hasOnClose, session);
            var second := HandleClose(hasOnClose, first.restored.store);
            second.restored.scroll.None? && second.restored.store == first.restored.store
  {
  }

  /** The document keydown listener. It is registered whether or not a
      project is shown, so Escape closes even when nothing is rendered. */
  function HandleKeyDown(key: string, hasOnClose: bool, session: ScrollMemory.Store): (r: Option<Closed>)
    ensures r.Some? <==> key == "Escape"
    ensures r.Some? ==> r.value == HandleClose(hasOnClose, session)
  {
    if key == "Escape" then Some(HandleClose(hasOnClose, session)) else None
  }

  // ---- clicks and event bubbling -------------------------------------------

  /** Where a click lands: the backdrop, the content box, or the close button inside it. */
  datatype ClickTarget = Backdrop | Content | CloseButton

  /** The click handlers an event meets while bubbling. */
  datatype Handler = CloseHandler | StopPropagation

  /** The handlers from the target outward: the close button sits in the
      content box (which stops propagation), which sits in the backdrop. */
  function BubblePath(t: ClickTarget): seq<Handler> {
    match t
    case Backdrop => [CloseHandler]
    case Content => [StopPropagation, CloseHandler]
    case CloseButton => [CloseHandler, StopPropagation, CloseHandler]
  }

  /** How many close handlers run: the handlers met before the first one that
      stops propagation, or all of them when none does. */
  function CloseCalls(path: seq<Handler>): (n: nat)
    ensures n <= |path|
    ensures forall i :: 0 <= i < n ==> path[i] == CloseHandler
    ensures n < |path| ==> path[n] == StopPropagation
  {
    if |path| == 0 || path[0] == StopPropagation then 0
    else
      var rest := CloseCalls(path[1..]);
      assert path[0] == CloseHandler;
      assert forall i :: 1 <= i < |path| ==> path[i] == path[1..][i - 1];
      1 + rest
  }

  /** A click closes the modal at most once, and a click inside the content never does. */
  lemma ClickClosesAtMostOnce(t: ClickTarget)
    ensures CloseCalls(BubblePath(t)) == (if t == Content then 0 else 1)
  {
  }

  function ModalClick(t: ClickTarget, hasOnClose: bool, session: ScrollMemory.Store): (r: Option<Closed>)
    ensures r.Some? <==> t != Content
    ensures r.Some? ==> r.value == HandleClose(hasOnClose, session)
  {
    ClickClosesAtMostOnce(t);
    if CloseCalls(BubblePath(t)) > 0 then Some(HandleClose(hasOnClose, session)) else None
  }

  // ---- rendering -----------------------------------------------------------

  /** The rendered modal: its text, and the iframe `src` when there is a video. */
  datatype ModalView = ModalView(title: string, role: string, subtitle: string, iframeSrc: Option<string>)

  function Render(project: Option<Project>): (r: Option<ModalView>)
    ensures r.None? <==> project.None?
    ensures r.Some? ==> r.value.title == project.value.title
    ensures r.Some? ==> r.value.role == project.value.role && r.value.subtitle == project.value.subtitle
    ensures r.Some? ==> (r.value.iframeSrc.Some? <==> HasVideo(project.value))
    ensures r.Some? && HasVideo(project.value) ==>
              r.value.iframeSrc == Some(Vimeo.ModalEmbedSrc(VideoId(project.value), project.value.vimeoHash))
  {
    match project
    case None => None
    case Some(p) =>
      var src := if HasVideo(p) then Some(Vimeo.ModalEmbedSrc(VideoId(p), p.vimeoHash)) else None;
      Some(ModalView(p.title, p.role, p.subtitle, src))
  }

  // ---- dismissal and render guards together ------------------------------

  /** Escape, a backdrop click and a close-button click all run the same close. */
  lemma EveryDismissalRunsHandleClose(hasOnClose: bool, session: ScrollMemory.Store)
    ensures HandleKeyDown("Escape", hasOnClose, session) == ModalClick(Backdrop, hasOnClose, session)
    ensures ModalClick(Backdrop, hasOnClose, session) == ModalClick(CloseButton, hasOnClose, session)
    ensures HandleKeyDown("Escape", hasOnClose, session) == Some(HandleClose(hasOnClose, session))
  {
  }

  /** The keydown listener is registered before the null-project guard: with
      no project nothing is rendered, yet Escape still closes. */
  lemma EscapeClosesWithoutProject(hasOnClose: bool, session: ScrollMemory.Store)
    ensures Render(None) == None
    ensures HandleKeyDown("Escape", hasOnClose, session).Some?
  {
  }

  /** For a project with a video, the hash changes the rendered modal iff it is truthy. */
  lemma RenderDependsOnHashIffTruthy(p: Project, h: Option<string>)
    requires HasVideo(p)
    ensures Render(Some(p.(vimeoHash := h))) == Render(Some(p.(vimeoHash := None))) <==> !Truthy(h)
  {
  }

  // ---- grid and modal together ---------------------------------------------

  /** Opening a project on its route from the grid and closing the routed modal
      (which has no `onClose`) goes home and scrolls back to where the grid was. */
  lemma RoutedOpenThenCloseRestoresScroll(page: ProjectGrid.Page, w: ProjectGrid.Viewport, p: Project)
    requires !ProjectGrid.OpensOverlay(Some(w), p)
    ensures var c := ProjectGrid.Click(page, Some(w), p);
            c.pushed == Some(ProjectGrid.WorkRoute(p.id))
            && HandleClose(false, c.page.session)
               == Closed(PushRoute("/"),
                         ScrollMemory.Restored(page.session - {ScrollMemory.ScrollKey},
                                               Some(ScrollMemory.ScrollTo(w.scrollY))))
  {
  }
}
