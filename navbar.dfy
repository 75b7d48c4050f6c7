/** The navigation bar: the "scrolled" flag, the scroll-spy that highlights
    the section the reader is in, and the link clicks that close the mobile
    menu. */
module Navbar {
  import opened Util

  datatype NavLink = NavLink(href: string, text: string)

  const NavLinks: seq<NavLink> := [
    NavLink("#skills", "Skills"),
    NavLink("#experience", "Experience"),
    NavLink("#projects", "Projects"),
    NavLink("#contact", "Contact")
  ]

  /** Pixels of scroll past which the bar is "scrolled", and the look-ahead
      added to the scroll position when choosing the active section. */
  const ScrollThreshold := 100
  const SpyOffset := 100

  /** The document as the scroll handler sees it: the `offsetTop` of each
      element that `getElementById` finds; an id not in the map has no
      element. */
  type Document = map<string, int>

  /** `navLinks.map(link => link.href.substring(1))`. */
  function SectionIds(links: seq<NavLink>): (ids: seq<string>)
    ensures |ids| == |links|
    ensures forall i :: 0 <= i < |links| ==> ids[i] == DropFirst(links[i].href)
  {
    if |links| == 0 then [] else [DropFirst(links[0].href)] + SectionIds(links[1..])
  }

  /** The section ids are the hrefs without their '#', in document order, and
      no two links share one. */
  lemma NavSectionIds()
    ensures SectionIds(NavLinks) == ["skills", "experience", "projects", "contact"]
    ensures forall i, j :: 0 <= i < j < |NavLinks| ==> SectionIds(NavLinks)[i] != SectionIds(NavLinks)[j]
  {
    var ids := SectionIds(NavLinks);
    assert ids[0] == "skills" && ids[1] == "experience" && ids[2] == "projects" && ids[3] == "contact";
  }

  /** Section `id` exists and its top is at or above `position`. */
  predicate Qualifies(doc: Document, id: string, position: int)
  {
    id in doc && doc[id] <= position
  }

  /** Among the first `n` sections, the last one that qualifies. */
  function LastQualifying(ids: seq<string>, doc: Document, position: int, n: nat): (r: Option<nat>)
    requires n <= |ids|
    ensures r.Some? ==> r.value < n && Qualifies(doc, ids[r.value], position)
    ensures r.Some? ==> forall j :: r.value < j < n ==> !Qualifies(doc, ids[j], position)
    ensures r.None? ==> forall j :: 0 <= j < n ==> !Qualifies(doc, ids[j], position)
  {
    if n == 0 then None
    else if Qualifies(doc, ids[n - 1], position) then Some(n - 1)
    else LastQualifying(ids, doc, position, n - 1)
  }

  /** The index the scroll-spy chooses at `scrollY`, if any section qualifies. */
  function Spy(doc: Document, scrollY: int): Option<nat>
  {
    LastQualifying(SectionIds(NavLinks), doc, scrollY + SpyOffset, |NavLinks|)
  }

  /** Scrolling further down never moves the highlight up: the later position
      qualifies every section the earlier one did. */
  lemma SpyMonotone(doc: Document, y1: int, y2: int)
    requires y1 <= y2
    requires Spy(doc, y1).Some?
    ensures Spy(doc, y2).Some? && Spy(doc, y1).value <= Spy(doc, y2).value
  {
    var ids := SectionIds(NavLinks);
    var i := Spy(doc, y1).value;
    assert Qualifies(doc, ids[i], y2 + SpyOffset);
  }

  /** The link `link` is highlighted when `activeSection` names its section. */
  predicate IsHighlighted(link: NavLink, activeSection: string)
  {
    activeSection == DropFirst(link.href)
  }

  /** One section id highlights exactly one link, and the empty initial value
      highlights none. */
  lemma HighlightIsUnique(activeSection: string)
    ensures activeSection == "" ==> forall i :: 0 <= i < |NavLinks| ==> !IsHighlighted(NavLinks[i], activeSection)
    ensures activeSection in SectionIds(NavLinks) ==>
      exists i :: 0 <= i < |NavLinks| && IsHighlighted(NavLinks[i], activeSection)
    ensures forall i, j :: 0 <= i < |NavLinks| && 0 <= j < |NavLinks| ==>
      (IsHighlighted(NavLinks[i], activeSection) && IsHighlighted(NavLinks[j], activeSection) ==> i == j)
  {
    NavSectionIds();
  }

  /** Where a link click scrolls: the element named by the href without its
      '#', when the document has it. */
  function NavTarget(href: string, doc: Document): (r: Option<string>)
    ensures r.Some? <==> DropFirst(href) in doc
    ensures r.Some? ==> r.value == DropFirst(href) && r.value in doc
  {
    if DropFirst(href) in doc then Some(DropFirst(href)) else None
  }

  class Nav {
    var isScrolled: bool
    var activeSection: string
    var isMobileMenuOpen: bool

    /** The active section is empty or one of the links' sections. */
    ghost predicate Valid()
      reads this
    {
      activeSection == "" || activeSection in SectionIds(NavLinks)
    }

    constructor ()
      ensures Valid()
      ensures !isScrolled && activeSection == "" && !isMobileMenuOpen
    {
      isScrolled := false;
      activeSection := "";
      isMobileMenuOpen := false;
    }

    /** `handleScroll`: set the scrolled flag, then scan the sections from the
        last to the first and make the first qualifying one active; when none
        qualifies the previous active section stays. */
    method HandleScroll(scrollY: int, doc: Document)
      requires Valid()
      modifies this
      ensures Valid()
      ensures isScrolled == (scrollY > ScrollThreshold)
      ensures activeSection == match Spy(doc, scrollY)
        case Some(i) => SectionIds(NavLinks)[i]
        case None => old(activeSection)
      ensures isMobileMenuOpen == old(isMobileMenuOpen)
    {
      isScrolled := scrollY > ScrollThreshold;
      var sections := SectionIds(NavLinks);
      var scrollPosition := scrollY + SpyOffset;
      ghost var chosen: Option<nat> := None;
      var i := |sections| - 1;
      while i >= 0
        invariant -1 <= i < |sections|
        invariant forall j :: i < j < |sections| ==> !Qualifies(doc, sections[j], scrollPosition)
        invariant activeSection == old(activeSection)
      {
        if sections[i] in doc && doc[sections[i]] <= scrollPosition {
          activeSection := sections[i];
          chosen := Some(i);
          break;
        }
        i := i - 1;
      }
      if chosen.Some? {
        SpyFinds(doc, scrollY, chosen.value);
      } else {
        SpyFindsNothing(doc, scrollY);
      }
    }

    /** `handleNavClick`: scroll to the target if it exists, and always close
        the mobile menu. Returns the id scrolled to. */
    method HandleNavClick(href: string, doc: Document) returns (scrolledTo: Option<string>)
      modifies this
      ensures !isMobileMenuOpen
      ensures scrolledTo == NavTarget(href, doc)
      ensures isScrolled == old(isScrolled) && activeSection == old(activeSection)
    {
      var targetId := DropFirst(href);
      if targetId in doc {
        scrolledTo := Some(targetId);
      } else {
        scrolledTo := None;
      }
      isMobileMenuOpen := false;
    }

    /** The sheet's `onOpenChange`. */
    method SetMobileMenuOpen(open: bool)
      modifies this
      ensures isMobileMenuOpen == open
      ensures isScrolled == old(isScrolled) && activeSection == old(activeSection)
    {
      isMobileMenuOpen := open;
    }
  }

  /** The scan stops at `i`: `Spy` chooses it. */
  lemma SpyFinds(doc: Document, scrollY: int, i: nat)
    requires i < |NavLinks|
    requires Qualifies(doc, SectionIds(NavLinks)[i], scrollY + SpyOffset)
    requires forall j :: i < j < |NavLinks| ==> !Qualifies(doc, SectionIds(NavLinks)[j], scrollY + SpyOffset)
    ensures Spy(doc, scrollY) == Some(i)
  {
  }

  /** The scan runs off the front: `Spy` chooses nothing. */
  lemma SpyFindsNothing(doc: Document, scrollY: int)
    requires forall j :: 0 <= j < |NavLinks| ==> !Qualifies(doc, SectionIds(NavLinks)[j], scrollY + SpyOffset)
    ensures Spy(doc, scrollY) == None
  {
  }
}
