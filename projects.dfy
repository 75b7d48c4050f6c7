/** The project showcase: the category filter over the fixture projects, the
    set of cards currently in view, the stack badges of a card and the rule
    that hides the Demo button for some projects. */
module ProjectsSection {
  import opened Util

  /** A project's `category` is either one string or a list of strings. */
  datatype Category = Single(name: string) | Several(names: seq<string>)

  /** A project; `demoUrl` and `codeUrl` are optional links. */
  datatype Project = Project(id: string, title: string, stack: seq<string>, category: Category,
                             demoUrl: Option<string>, codeUrl: Option<string>)

  /** The selection that keeps every project. */
  const All := "All"

  /** The filter buttons, in the order they are shown. */
  const Categories: seq<string> := ["All", "Full Stack", "AI/ML"]

  /** The three authored projects (only the fields the logic reads). */
  function MockProjects(): seq<Project>
  {
    [ Project("1", "AI-Powered Period Tracker",
              ["React", "Next.js", "TypeScript", "Python", "PostgreSQL"],
              Several(["Full Stack", "AI/ML"]), Some("#demo"), Some("#code")),
      Project("2", "Chess Neural Network",
              ["Python", "TensorFlow", "NumPy"],
              Single("AI/ML"), Some("#demo"), Some("#code")),
      Project("3", "This website!",
              ["Next.js", "Vercel", "Shopify", "GraphQL", "Tailwind"],
              Single("Full Stack"), Some("#demo"), Some("#code")) ]
  }

  /** Whether the filter keeps `p` under the selection `selected`. */
  predicate Keeps(selected: string, p: Project)
  {
    if selected == All then true
    else match p.category
      case Several(names) => selected in names
      case Single(name) => name == selected
  }

  /** `projects.filter(...)`: the projects the selection keeps, in order. */
  function Filter(projects: seq<Project>, selected: string): (r: seq<Project>)
    ensures |r| <= |projects|
    ensures forall i :: 0 <= i < |r| ==> Keeps(selected, r[i]) && r[i] in projects
  {
    if |projects| == 0 then []
    else
      var rest := Filter(projects[1..], selected);
      if Keeps(selected, projects[0]) then [projects[0]] + rest else rest
  }

  /** `xs` is `ys` with some elements left out and the rest kept in order. */
  ghost predicate IsSubsequence<T>(xs: seq<T>, ys: seq<T>)
    decreases |ys|
  {
    if |xs| == 0 then true
    else if |ys| == 0 then false
    else (xs[0] == ys[0] && IsSubsequence(xs[1..], ys[1..])) || IsSubsequence(xs, ys[1..])
  }

  /** Selecting "All" returns every project, in its original order. */
  lemma {:induction false} FilterAll(projects: seq<Project>)
    ensures Filter(projects, All) == projects
  {
    if |projects| > 0 {
      FilterAll(projects[1..]);
      assert [projects[0]] + projects[1..] == projects;
    }
  }

  /** A project is in the result exactly when it is in the list and the
      selection keeps it. */
  lemma {:induction false} FilterMembership(projects: seq<Project>, selected: string, p: Project)
    ensures p in Filter(projects, selected) <==> p in projects && Keeps(selected, p)
  {
    if |projects| > 0 {
      FilterMembership(projects[1..], selected, p);
      assert p in projects <==> p == projects[0] || p in projects[1..] by {
        assert projects == [projects[0]] + projects[1..];
      }
    }
  }

  /** The result keeps the projects' relative order. */
  lemma {:induction false} FilterIsSubsequence(projects: seq<Project>, selected: string)
    ensures IsSubsequence(Filter(projects, selected), projects)
  {
    if |projects| > 0 {
      var r := Filter(projects, selected);
      FilterIsSubsequence(projects[1..], selected);
      if Keeps(selected, projects[0]) {
        assert r[0] == projects[0] && r[1..] == Filter(projects[1..], selected);
      } else if |r| > 0 {
        assert r == Filter(projects[1..], selected);
      }
    }
  }

  /** Each project is kept as many times as it is listed, or not at all. */
  lemma {:induction false} FilterCount(projects: seq<Project>, selected: string, p: Project)
    ensures multiset(Filter(projects, selected))[p] == if Keeps(selected, p) then multiset(projects)[p] else 0
  {
    if |projects| > 0 {
      FilterCount(projects[1..], selected, p);
      assert projects == [projects[0]] + projects[1..];
    }
  }

  function Ids(projects: seq<Project>): (ids: seq<string>)
    ensures |ids| == |projects|
    ensures forall i :: 0 <= i < |ids| ==> ids[i] == projects[i].id
  {
    if |projects| == 0 then [] else [projects[0].id] + Ids(projects[1..])
  }

  /** Filtering the three-project fixture, one project at a time. */
  lemma FilterOfThree(ps: seq<Project>, selected: string)
    requires |ps| == 3
    ensures Filter(ps, selected) ==
      (if Keeps(selected, ps[0]) then [ps[0]] else [])
      + (if Keeps(selected, ps[1]) then [ps[1]] else [])
      + (if Keeps(selected, ps[2]) then [ps[2]] else [])
  {
    var r2 := if Keeps(selected, ps[2]) then [ps[2]] else [];
    assert ps[2..][1..] == [];
    assert Filter(ps[2..], selected) == r2;
    var r1 := if Keeps(selected, ps[1]) then [ps[1]] else [];
    assert ps[1..][1..] == ps[2..];
    assert Filter(ps[1..], selected) == r1 + r2;
  }

  /** On the fixture, "AI/ML" keeps projects 1 and 2. */
  lemma FixtureAiMl()
    ensures Ids(Filter(MockProjects(), "AI/ML")) == ["1", "2"]
  {
    var ps := MockProjects();
    FilterOfThree(ps, "AI/ML");
    assert Keeps("AI/ML", ps[0]) && Keeps("AI/ML", ps[1]) && !Keeps("AI/ML", ps[2]);
    assert Filter(ps, "AI/ML") == [ps[0], ps[1]];
  }

  /** On the fixture, "Full Stack" keeps projects 1 and 3. */
  lemma FixtureFullStack()
    ensures Ids(Filter(MockProjects(), "Full Stack")) == ["1", "3"]
  {
    var ps := MockProjects();
    FilterOfThree(ps, "Full Stack");
    assert Keeps("Full Stack", ps[0]) && !Keeps("Full Stack", ps[1]) && Keeps("Full Stack", ps[2]);
    assert Filter(ps, "Full Stack") == [ps[0], ps[2]];
  }

  /** On the fixture, every filter button keeps at least one project, so the
      "No projects found" view never appears. */
  lemma FixtureNeverEmpty()
    ensures Ids(Filter(MockProjects(), All)) == ["1", "2", "3"]
    ensures forall c :: c in Categories ==> |Filter(MockProjects(), c)| > 0
  {
    FilterAll(MockProjects());
    forall c | c in Categories
      ensures |Filter(MockProjects(), c)| > 0
    {
      if c == "AI/ML" {
        FixtureAiMl();
      } else if c == "Full Stack" {
        FixtureFullStack();
      }
    }
  }

  /** One IntersectionObserver entry: which card, and whether it is in view. */
  datatype IntersectionEntry = IntersectionEntry(targetId: string, isIntersecting: bool)

  /** The `visibleCards` update for one entry: an entering card is added, a
      leaving card is removed, and no other id changes. */
  function ApplyEntry(visible: set<string>, e: IntersectionEntry): (r: set<string>)
    ensures e.isIntersecting ==> e.targetId in r
    ensures !e.isIntersecting ==> e.targetId !in r
    ensures forall id :: id != e.targetId ==> (id in r <==> id in visible)
  {
    if e.isIntersecting then visible + {e.targetId} else visible - {e.targetId}
  }

  /** Adding a card that is already visible changes nothing. */
  lemma ReinsertIsNoOp(visible: set<string>, id: string)
    requires id in visible
    ensures ApplyEntry(visible, IntersectionEntry(id, true)) == visible
  {
  }

  /** The entries of one observer callback, applied in order. */
  function ApplyEntries(visible: set<string>, entries: seq<IntersectionEntry>): set<string>
  {
    if |entries| == 0 then visible
    else ApplyEntry(ApplyEntries(visible, entries[..|entries| - 1]), entries[|entries| - 1])
  }

  /** The last entry that names `id`, if any. */
  function LastFor(entries: seq<IntersectionEntry>, id: string): Option<bool>
  {
    if |entries| == 0 then None
    else if entries[|entries| - 1].targetId == id then Some(entries[|entries| - 1].isIntersecting)
    else LastFor(entries[..|entries| - 1], id)
  }

  /** After a batch, a card is visible exactly when the last entry about it
      said it was in view; a card no entry mentions keeps its state. */
  lemma {:induction false} LastEntryDecides(visible: set<string>, entries: seq<IntersectionEntry>, id: string)
    ensures id in ApplyEntries(visible, entries) <==>
      match LastFor(entries, id)
      case Some(inView) => inView
      case None => id in visible
  {
    if |entries| > 0 {
      LastEntryDecides(visible, entries[..|entries| - 1], id);
    }
  }

  /** The badges of a card: the first technologies, and how many more. */
  datatype StackBadges = StackBadges(shown: seq<string>, more: Option<nat>)

  const MaxStackBadges := 3

  /** `stack.slice(0, 3)` and, when the stack is longer, "+N more". */
  function Badges(stack: seq<string>): StackBadges
  {
    StackBadges(stack[..Min(MaxStackBadges, |stack|)],
                if |stack| > MaxStackBadges then Some(|stack| - MaxStackBadges) else None)
  }

  /** The card shows the first min(3, |stack|) technologies in order; the
      "+N more" badge appears exactly when some are hidden, and counts them. */
  lemma BadgesCoverStack(stack: seq<string>)
    ensures var b := Badges(stack);
      |b.shown| == Min(3, |stack|)
      && b.shown <= stack
      && (b.more.Some? <==> |stack| > 3)
      && (b.more.Some? ==> |b.shown| + b.more.value == |stack|)
      && (b.more.None? ==> b.shown == stack)
  {
  }

  /** Projects "2" and "3" have no Demo button (card and modal). */
  predicate HasDemoButton(id: string)
  {
    id != "2" && id != "3"
  }

  /** The class of the modal's repository button. */
  function RepositoryButtonClass(id: string): string
  {
    if id == "2" || id == "3" then "w-full" else "flex-1"
  }

  /** The repository button takes the full width exactly when the Demo button
      is absent; the Demo button is missing for the fixture's projects 2 and 3
      only. */
  lemma DemoButtonRule(id: string)
    ensures RepositoryButtonClass(id) == "w-full" <==> !HasDemoButton(id)
    ensures HasDemoButton(id) <==> id !in {"2", "3"}
  {
  }

  /** One rendered card: its id, whether it animates in, its badges, and
      whether it has a Demo button. */
  datatype Card = Card(id: string, inView: bool, badges: StackBadges, demo: bool)

  /** What the section shows: the loading skeleton, the empty message, or the
      grid of cards. */
  datatype View = Skeleton | NoProjects | Grid(cards: seq<Card>)

  function CardsOf(projects: seq<Project>, visible: set<string>): (cards: seq<Card>)
    ensures |cards| == |projects|
    ensures forall i :: 0 <= i < |cards| ==>
      cards[i] == Card(projects[i].id, projects[i].id in visible, Badges(projects[i].stack), HasDemoButton(projects[i].id))
  {
    if |projects| == 0 then []
    else [Card(projects[0].id, projects[0].id in visible, Badges(projects[0].stack), HasDemoButton(projects[0].id))]
         + CardsOf(projects[1..], visible)
  }

  /** The section's own state. */
  class Projects {
    const projects: seq<Project>
    var selectedCategory: string
    var selectedProject: Option<Project>
    var isLoading: bool
    var visibleCards: set<string>

    constructor ()
      ensures projects == MockProjects()
      ensures selectedCategory == All && selectedProject == None
      ensures isLoading && visibleCards == {}
    {
      projects := MockProjects();
      selectedCategory := All;
      selectedProject := None;
      isLoading := true;
      visibleCards := {};
    }

    /** The simulated load delay has elapsed. */
    method LoadTimerFired()
      modifies this
      ensures !isLoading
      ensures selectedCategory == old(selectedCategory) && selectedProject == old(selectedProject)
      ensures visibleCards == old(visibleCards)
    {
      isLoading := false;
    }

    /** A filter button was clicked; the visible-card set is not reset. */
    method ChangeCategory(category: string)
      modifies this
      ensures selectedCategory == category
      ensures selectedProject == old(selectedProject) && isLoading == old(isLoading)
      ensures visibleCards == old(visibleCards)
    {
      selectedCategory := category;
    }

    /** "View Repository" on a card opens the detail modal. */
    method ViewCase(p: Project)
      modifies this
      ensures selectedProject == Some(p)
      ensures selectedCategory == old(selectedCategory) && isLoading == old(isLoading)
      ensures visibleCards == old(visibleCards)
    {
      selectedProject := Some(p);
    }

    method CloseModal()
      modifies this
      ensures selectedProject == None
      ensures selectedCategory == old(selectedCategory) && isLoading == old(isLoading)
      ensures visibleCards == old(visibleCards)
    {
      selectedProject := None;
    }

    /** The observer callback: each entry adds or removes its card's id. */
    method OnIntersection(entries: seq<IntersectionEntry>)
      modifies this
      ensures visibleCards == ApplyEntries(old(visibleCards), entries)
      ensures selectedCategory == old(selectedCategory) && selectedProject == old(selectedProject)
      ensures isLoading == old(isLoading)
    {
      var i := 0;
      while i < |entries|
        invariant 0 <= i <= |entries|
        invariant visibleCards == ApplyEntries(old(visibleCards), entries[..i])
        invariant selectedCategory == old(selectedCategory) && selectedProject == old(selectedProject)
        invariant isLoading == old(isLoading)
      {
        var e := entries[i];
        assert entries[..i + 1][..i] == entries[..i];
        if e.isIntersecting {
          visibleCards := visibleCards + {e.targetId};
        } else {
          visibleCards := visibleCards - {e.targetId};
        }
        i := i + 1;
      }
      assert entries[..|entries|] == entries;
    }

    function FilteredProjects(): seq<Project>
      reads this
    {
      Filter(projects, selectedCategory)
    }

    function Render(): View
      reads this
    {
      if isLoading then Skeleton
      else if |FilteredProjects()| == 0 then NoProjects
      else Grid(CardsOf(FilteredProjects(), visibleCards))
    }

    /** The modal's buttons for the selected project: (Demo shown, repository class). */
    function ModalButtons(): Option<(bool, string)>
      reads this
    {
      match selectedProject
      case None => None
      case Some(p) => Some((HasDemoButton(p.id), RepositoryButtonClass(p.id)))
    }
  }

  /** Once loaded, the section shows a card per kept project, in order, for
      every filter button; a card animates in exactly while it is visible. */
  lemma LoadedViewIsGrid(s: Projects)
    requires s.projects == MockProjects() && !s.isLoading && s.selectedCategory in Categories
    ensures s.Render().Grid?
    ensures |s.Render().cards| == |s.FilteredProjects()|
    ensures forall i :: 0 <= i < |s.Render().cards| ==>
      s.Render().cards[i].id == s.FilteredProjects()[i].id
      && (s.Render().cards[i].inView <==> s.FilteredProjects()[i].id in s.visibleCards)
  {
    FixtureNeverEmpty();
  }
}
