/** The home page: it shows the loading overlay until the overlay reports
    ready, fades it for 400 ms, then swaps it for the navbar and the
    sections; and it turns clicks on in-page anchors into scrolls. */
module HomePage {
  import opened Util
  import Navbar
  import opened LoadingOverlay
  import ProjectsSection

  /** Milliseconds between `onReady` and the sections replacing the overlay. */
  const TransitionDelay := 400

  /** The class the overlay gets while the page fades it out. */
  const FadingClass := "opacity-0 pointer-events-none"

  /** The ids of the section wrappers, in document order. */
  const WrapperIds: seq<string> := ["skills", "experience", "projects", "contact"]

  /** The wrappers are exactly the targets of the navbar's links, in order. */
  lemma WrappersAreNavTargets()
    ensures WrapperIds == Navbar.SectionIds(Navbar.NavLinks)
  {
    Navbar.NavSectionIds();
  }

  /** What the page renders: the overlay with its class while loading, and
      the navbar with the section wrappers once loaded. */
  datatype PageView = PageView(overlayClass: Option<string>, navbar: bool, sections: seq<string>)

  class Page {
    const overlay: Overlay
    var isLoading: bool
    var isTransitioning: bool
    var finishTimer: Option<int>
    /** When `onReady` reached the page, if it has. */
    ghost var completedAt: Option<int>

    ghost predicate Valid()
      reads this, overlay
    {
      overlay.Valid()
      // the overlay is mounted exactly while the page is loading
      && (isLoading <==> overlay.mounted)
      && (isTransitioning ==> isLoading)
      && (finishTimer.Some? <==> isTransitioning)
      // `onReady` has run exactly when the page has started or finished its transition
      && (overlay.onReadyCalls == 1 <==> completedAt.Some?)
      && (isLoading ==> (isTransitioning <==> completedAt.Some?))
      && (!isLoading ==> completedAt.Some?)
      && (finishTimer.Some? ==> finishTimer.value == completedAt.value + TransitionDelay && overlay.now >= completedAt.value)
    }

    /** The page mounts at `mountAt` and mounts the overlay with it. */
    constructor (mountAt: int)
      ensures Valid() && fresh(overlay)
      ensures isLoading && !isTransitioning && finishTimer == None
      ensures overlay.mountAt == mountAt && overlay.now == mountAt
      ensures !overlay.isReady && !overlay.showIdleState && !overlay.isExiting && overlay.onReadyCalls == 0
      ensures overlay.readyTimer == Some(mountAt + ReadyDelay) && overlay.exitTimer == None
      ensures overlay.idleTimer == Some(IdleTimer(mountAt + IdleDelay, false))
    {
      overlay := new Overlay(mountAt);
      isLoading := true;
      isTransitioning := false;
      finishTimer := None;
      completedAt := None;
    }

    /** The overlay's load timer fires. */
    method LoadTimerFired(t: int)
      requires Valid() && isLoading
      requires overlay.readyTimer.Some? && overlay.readyTimer.value <= t && overlay.now <= t
      modifies overlay
      ensures Valid() && overlay.now == t && overlay.isReady && overlay.isExiting
      ensures !old(overlay.isExiting) ==> overlay.exitTimer == Some(t + ExitDelay)
      ensures overlay.showIdleState == old(overlay.showIdleState) && overlay.onReadyCalls == old(overlay.onReadyCalls)
    {
      overlay.FireReadyTimer(t);
    }

    /** The overlay's idle timer fires. */
    method IdleTimerFired(t: int)
      requires Valid() && isLoading
      requires overlay.idleTimer.Some? && overlay.idleTimer.value.due <= t && overlay.now <= t
      modifies overlay
      ensures Valid() && overlay.now == t
      ensures overlay.showIdleState == (old(overlay.showIdleState) || !old(overlay.idleTimer).value.sawReady)
      ensures overlay.isReady == old(overlay.isReady) && overlay.isExiting == old(overlay.isExiting)
      ensures overlay.exitTimer == old(overlay.exitTimer) && overlay.readyTimer == old(overlay.readyTimer)
    {
      overlay.FireIdleTimer(t);
    }

    /** "Continue anyway" is clicked. */
    method ContinueClicked(t: int) returns (handled: bool)
      requires Valid() && isLoading && overlay.now <= t
      modifies overlay
      ensures Valid() && overlay.now == t
      ensures handled <==> old(overlay.showIdleState && !overlay.isExiting)
      ensures handled ==> overlay.isExiting && overlay.exitTimer == Some(t + ExitDelay)
      ensures !handled ==> overlay.isExiting == old(overlay.isExiting) && overlay.exitTimer == old(overlay.exitTimer)
      ensures overlay.isReady == old(overlay.isReady) && overlay.readyTimer == old(overlay.readyTimer)
      ensures overlay.showIdleState == old(overlay.showIdleState) && overlay.onReadyCalls == old(overlay.onReadyCalls)
    {
      handled := overlay.ClickContinue(t);
    }

    /** The overlay's exit timer fires and calls `onReady`, which is
        `handleLoadingComplete`: the page starts its transition and schedules
        the end of loading 400 ms later. */
    method ExitTimerFired(t: int)
      requires Valid() && isLoading
      requires overlay.exitTimer.Some? && overlay.exitTimer.value <= t && overlay.now <= t
      modifies this, overlay
      ensures Valid() && overlay.now == t
      ensures isLoading && isTransitioning && finishTimer == Some(t + TransitionDelay)
      ensures overlay.onReadyCalls == 1 && overlay.exitTimer == None
      ensures overlay.isReady == old(overlay.isReady) && overlay.readyTimer == old(overlay.readyTimer)
      ensures overlay.showIdleState == old(overlay.showIdleState) && overlay.isExiting == old(overlay.isExiting)
    {
      overlay.FireExitTimer(t);
      isTransitioning := true;
      finishTimer := Some(t + TransitionDelay);
      completedAt := Some(t);
    }

    /** The transition timer fires: loading ends, the overlay unmounts and
        its pending timers are cleared. */
    method TransitionTimerFired(t: int)
      requires Valid() && finishTimer.Some? && finishTimer.value <= t && overlay.now <= t
      modifies this, overlay
      ensures Valid() && overlay.now == t
      ensures !isLoading && !isTransitioning && finishTimer == None
      ensures t >= completedAt.value + TransitionDelay
      ensures !overlay.mounted && overlay.readyTimer == None && overlay.idleTimer == None && overlay.exitTimer == None
      ensures overlay.isReady == old(overlay.isReady) && overlay.onReadyCalls == 1
      ensures overlay.showIdleState == old(overlay.showIdleState) && overlay.isExiting == old(overlay.isExiting)
    {
      isLoading := false;
      isTransitioning := false;
      finishTimer := None;
      overlay.Unmount(t);
    }

    function View(): (v: PageView)
      requires Valid()
      reads this, overlay
      ensures v.overlayClass.Some? <==> isLoading
      ensures v.overlayClass == Some(FadingClass) <==> isTransitioning
      ensures v.navbar <==> !isLoading
      ensures !isLoading ==> v.sections == Navbar.SectionIds(Navbar.NavLinks)
      ensures isLoading ==> v.sections == []
    {
      WrappersAreNavTargets();
      if isLoading then PageView(Some(if isTransitioning then FadingClass else ""), false, [])
      else PageView(None, true, WrapperIds)
    }
  }

  /** The fading class only ever lands on an overlay that already renders
      nothing: by the time `onReady` reaches the page, the overlay is exiting. */
  lemma FadingOverlayIsEmpty(p: Page)
    requires p.Valid() && p.isTransitioning
    ensures p.View().overlayClass == Some(FadingClass)
    ensures p.overlay.Render() == Nothing
  {
  }

  /** What the page's document-level click handler does with a click. */
  datatype ClickOutcome = Default | Intercepted(scrollTo: Option<string>)

  /** `handleSmoothScroll` for a click whose target has attribute `href`
      (None when it has none): an href starting with '#' is intercepted and
      the section named by the rest is scrolled to when the document has it.
      `getElementById('')` finds nothing, so a bare "#" scrolls nowhere. */
  function InterceptClick(href: Option<string>, doc: Navbar.Document): (c: ClickOutcome)
    ensures c.Intercepted? <==> href.Some? && StartsWith(href.value, '#')
    ensures c.Intercepted? && c.scrollTo.Some? ==>
      href.value == ['#'] + c.scrollTo.value && c.scrollTo.value in doc && c.scrollTo.value != ""
    ensures c.Intercepted? && c.scrollTo.None? ==> DropFirst(href.value) !in doc || href.value == "#"
  {
    if href.Some? && StartsWith(href.value, '#') then
      var id := DropFirst(href.value);
      Intercepted(if id != "" && id in doc then Some(id) else None)
    else Default
  }

  /** The navbar's links are buttons without an href, so the page's handler
      lets their clicks through; the navbar's own click handler scrolls each
      one to its section wrapper once the wrappers are in the document. */
  lemma NavClicksReachWrappers(doc: Navbar.Document)
    requires forall id :: id in WrapperIds ==> id in doc
    ensures InterceptClick(None, doc) == Default
    ensures forall i :: 0 <= i < |Navbar.NavLinks| ==>
      Navbar.NavTarget(Navbar.NavLinks[i].href, doc) == Some(WrapperIds[i])
  {
    WrappersAreNavTargets();
    forall i | 0 <= i < |Navbar.NavLinks|
      ensures Navbar.NavTarget(Navbar.NavLinks[i].href, doc) == Some(WrapperIds[i])
    {
      assert Navbar.SectionIds(Navbar.NavLinks)[i] == DropFirst(Navbar.NavLinks[i].href);
      assert WrapperIds[i] in WrapperIds;
    }
  }

  /** The "Contact Me" anchors of the projects section and of its modal are
      intercepted and scroll to the contact wrapper. */
  lemma ContactAnchorScrolls(doc: Navbar.Document)
    requires forall id :: id in WrapperIds ==> id in doc
    ensures InterceptClick(Some("#contact"), doc) == Intercepted(Some("contact"))
  {
    assert WrapperIds[3] == "contact";
    assert DropFirst("#contact") == "contact";
  }

  /** The modal's "View Demo" and "View Repository" anchors point at "#demo"
      and "#code" for every fixture project: the page's handler intercepts
      them, so they open nothing, and with no such elements they scroll
      nowhere either. */
  lemma ModalLinksGoNowhere(doc: Navbar.Document)
    requires "demo" !in doc && "code" !in doc
    ensures forall i :: 0 <= i < |ProjectsSection.MockProjects()| ==>
      InterceptClick(ProjectsSection.MockProjects()[i].demoUrl, doc) == Intercepted(None)
      && InterceptClick(ProjectsSection.MockProjects()[i].codeUrl, doc) == Intercepted(None)
  {
    assert DropFirst("#demo") == "demo" && DropFirst("#code") == "code";
  }

  /** With every timer on time, the sections replace the overlay
      1500 + 400 + 400 = 2300 ms after mount, without the idle message. */
  method NormalLoad(mountAt: int) returns (p: Page, revealAt: int)
    ensures p.Valid() && fresh(p) && fresh(p.overlay)
    ensures revealAt == mountAt + 2300 && p.overlay.now == revealAt
    ensures !p.isLoading && p.View() == PageView(None, true, WrapperIds)
    ensures !p.overlay.showIdleState && p.overlay.onReadyCalls == 1
  {
    p := new Page(mountAt);
    p.LoadTimerFired(mountAt + ReadyDelay);
    p.ExitTimerFired(mountAt + ReadyDelay + ExitDelay);
    revealAt := mountAt + ReadyDelay + ExitDelay + TransitionDelay;
    p.TransitionTimerFired(revealAt);
  }

  /** When the load timer is late by 1500 ms or more, the idle message
      appears at mount + 3000; "Continue anyway" at `click` reveals the page
      800 ms later, and the late load timer is cleared without running. */
  method ContinueAnywayLoad(mountAt: int, click: int) returns (p: Page, revealAt: int)
    requires click >= mountAt + IdleDelay
    ensures p.Valid() && fresh(p) && fresh(p.overlay)
    ensures revealAt == click + ExitDelay + TransitionDelay && p.overlay.now == revealAt
    ensures !p.isLoading && p.View() == PageView(None, true, WrapperIds)
    ensures p.overlay.showIdleState && !p.overlay.isReady && p.overlay.readyTimer == None
    ensures p.overlay.onReadyCalls == 1
  {
    p := new Page(mountAt);
    p.IdleTimerFired(mountAt + IdleDelay);
    var handled := p.ContinueClicked(click);
    p.ExitTimerFired(click + ExitDelay);
    revealAt := click + ExitDelay + TransitionDelay;
    p.TransitionTimerFired(revealAt);
  }
}
