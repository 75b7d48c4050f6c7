# lance-portfolio, modelled in Dafny

This project models the interactive logic of the lance-portfolio single-page site. The site is a Next.js/React home page made of these parts:

- A loading overlay.
- A navigation bar with a scroll-spy.
- An experience timeline with "Load More" pagination.
- A filterable project grid.
- A contact form.

It models only the state and decisions behind what the site renders and when. Markup, styling and animation are left out.

Each component's state becomes a Dafny `class`:

- `Projects`, `Nav`, `Timeline`, `ContactForm`, `Overlay` and `Page`.
- Its fields are the component's `useState` variables.
- Every handler, effect callback and timer callback is a `method` that states the whole new state.

The pure helpers are functions, each with lemmas that say what they mean:

- The project filter.
- The month and date-range formatters.
- The company-initials routine.
- The badge colour table.
- The email pattern.
- The submission gate.

Time is a millisecond clock:

- A `setTimeout` is a pending due time.
- Its callback is an event the caller may deliver at or after that time, in any order allowed by the due times.
- `Date.now()` is a parameter.

Modules:

- `Util`:
  - the JavaScript string operations the components call (`split`, `join`, `substring(1)`, `startsWith`, `parseInt`, `toUpperCase`);
  - the character searches `IndexOf` and `LastIndexOf`. The source calls neither; they are the model's own way of deciding the email regular expression, tied to it by `ContactCTA.EmailCheckIsPattern`.
- `ProjectsSection`:
  - the category filter over the three fixture projects;
  - the set of cards in view, maintained by the IntersectionObserver callback;
  - the stack badges;
  - the rule that hides the Demo button.
- `Navbar`:
  - the "scrolled" flag;
  - the backward scan that picks the active section;
  - the link click that closes the mobile menu.
- `ExperienceTimeline`:
  - `formatMonth` and `formatDateRange`;
  - `getCompanyInitials`;
  - `getTypeColor`;
  - the type badge;
  - the bullets of an entry;
  - the slice-and-"Load More" pagination.
- `ContactCTA`:
  - the field rules as the form library applies them;
  - the email regular expression, both as a pattern and as a computed check;
  - the browser's own validity check on the `type="email"` input, which runs before the form library sees the submission;
  - the rate-limit/honeypot gate;
  - the request payload;
  - the flags after the request settles.
- `LoadingOverlay`: the load timer (1500 ms), the idle timer (3000 ms, re-armed whenever `isReady` changes), the "Continue anyway" escape, and the 400 ms exit delay before `onReady`.
- `HomePage`:
  - the page's `isLoading`/`isTransitioning` state around the overlay;
  - the rendered tree (overlay or navbar plus section wrappers);
  - the document-level click handler that intercepts `#` links, and which links of the page it actually sees.

Behaviours the proofs make explicit:

- The idle timer's closure captures `isReady` when its effect runs. That is why the model records the captured value with each pending idle timer.
  - The load timer re-arms the idle timer with a callback that sees `isReady == true`.
  - So "Continue anyway" can appear only if the load timer runs 1500 ms or more late (`Overlay.FireIdleTimer`).
- `onReady` runs at most once per mount. `Overlay.Valid` keeps the call count at 1 or less, and `Overlay.FireExitTimer` moves it from 0 to 1. That it runs exactly once is shown for the on-time and "Continue anyway" runs (`HomePage.NormalLoad`, `HomePage.ContinueAnywayLoad`).
- The page's fading class `opacity-0 pointer-events-none` lands only on an overlay that already renders nothing. By the time `onReady` reaches the page the overlay is exiting (`HomePage.FadingOverlayIsEmpty`).
- `activeSection` starts as `''`. Afterwards the scroll-spy keeps its last value whenever no section qualifies, so it is never cleared (`Navbar.Nav.HandleScroll`).
- The navbar's links are buttons without an `href`, so the page's `#`-link handler never sees them; the navbar's own handler scrolls them (`HomePage.NavClicksReachWrappers`). The handler does catch the two "Contact Me" anchors, and the modal's "#demo"/"#code" links, which it turns into nothing.
- Addresses such as "a@b..cd" match the form's pattern but are blocked by the browser's check on the email input (`ContactCTA.EmptyLabelRejected`).
- A submission that was sent turns away any valid second one within 5000 ms, for the rate limit (`ContactCTA.SubmitTwice`).

## Model

| member | source | states |
|---|---|---|
| Util.DropFirst | src/components/Navbar.tsx:26 | `substring(1)` gives the string minus its first character, and "" for "" |
| Util.Split | src/components/ExperienceTimeline.tsx:79 | `split` always yields at least one piece and no piece contains the separator |
| Util.JoinSplit | src/components/ExperienceTimeline.tsx:93 | splitting loses nothing: joining the pieces with the separator restores the string |
| Util.SplitAfter | src/components/ExperienceTimeline.tsx:79-80 | text before the first separator is the first piece; the rest splits independently |
| Util.IndexOf | src/components/ContactCTA.tsx:236 | the position of the first occurrence of a character, or none when it does not occur; the model's means of cutting an address at its '@' |
| Util.LastIndexOf | src/components/ContactCTA.tsx:236 | the position of the last occurrence of a character, or none when it does not occur; the model's means of finding the pattern's final '.' |
| Util.ParseIntDigits | src/components/ExperienceTimeline.tsx:81 | `parseInt` of digits followed by a non-digit is the value of those digits ("05" is 5) |
| Util.TwoDigitsValue | src/components/ExperienceTimeline.tsx:79-81 | a two-digit month string reads back as its number |
| ProjectsSection.Filter | src/components/ProjectsSection.tsx:107-113 | the filtered list is no longer than the list and holds only listed projects the selection keeps |
| ProjectsSection.FilterAll | src/components/ProjectsSection.tsx:108 | selecting "All" returns every project in its original order |
| ProjectsSection.FilterMembership | src/components/ProjectsSection.tsx:107-113 | a project is kept iff it is listed and its category equals, or its category list includes, the selection |
| ProjectsSection.FilterCount | src/components/ProjectsSection.tsx:107-113 | a kept project appears as often as it is listed, a dropped one not at all |
| ProjectsSection.FilterIsSubsequence | src/components/ProjectsSection.tsx:107-113 | filtering preserves the projects' relative order |
| ProjectsSection.FilterOfThree | src/components/ProjectsSection.tsx:107-113 | a three-project list filters to the kept ones among its three, in order |
| ProjectsSection.FixtureAiMl | src/components/ProjectsSection.tsx:29-92 | "AI/ML" keeps projects 1 (listed under two categories) and 2 |
| ProjectsSection.FixtureFullStack | src/components/ProjectsSection.tsx:29-92 | "Full Stack" keeps projects 1 and 3 |
| ProjectsSection.FixtureNeverEmpty | src/components/ProjectsSection.tsx:92 | "All" keeps projects 1, 2, 3, and no filter button yields an empty list |
| ProjectsSection.ApplyEntry | src/components/ProjectsSection.tsx:130-139 | an entering card's id is added, a leaving card's id removed, every other id unchanged |
| ProjectsSection.ReinsertIsNoOp | src/components/ProjectsSection.tsx:132 | re-adding an already visible card leaves the set as it was |
| ProjectsSection.LastEntryDecides | src/components/ProjectsSection.tsx:129-141 | after a batch a card is visible iff the last entry naming it was intersecting; unnamed cards keep their state |
| ProjectsSection.BadgesCoverStack | src/components/ProjectsSection.tsx:284-293 | a card shows the first min(3, n) technologies in order, and "+k more" iff some are hidden, with k the hidden count |
| ProjectsSection.DemoButtonRule | src/components/ProjectsSection.tsx:428-442 | the repository button is full width iff the Demo button is absent, which is for projects 2 and 3 only |
| ProjectsSection.CardsOf | src/components/ProjectsSection.tsx:241-247 | one card per filtered project, in order, animated in iff its id is visible |
| ProjectsSection.Projects.constructor | src/components/ProjectsSection.tsx:95-99 | starts on the fixture, "All", no modal, loading, no visible cards |
| ProjectsSection.Projects.LoadTimerFired | src/components/ProjectsSection.tsx:101-105 | the simulated load ends; nothing else changes |
| ProjectsSection.Projects.ChangeCategory | src/components/ProjectsSection.tsx:115-117 | sets the selection and does not reset visible cards or the modal |
| ProjectsSection.Projects.ViewCase | src/components/ProjectsSection.tsx:119-121 | opens the modal on the project; nothing else changes |
| ProjectsSection.Projects.CloseModal | src/components/ProjectsSection.tsx:123-125 | closes the modal; nothing else changes |
| ProjectsSection.Projects.OnIntersection | src/components/ProjectsSection.tsx:129-141 | the observer callback applies its entries in order to the visible set |
| ProjectsSection.LoadedViewIsGrid | src/components/ProjectsSection.tsx:222-247 | once loaded, every filter button shows a grid with one card per kept project, animated iff visible |
| Navbar.SectionIds | src/components/Navbar.tsx:26 | the section ids are the links' hrefs without their first character, one per link |
| Navbar.NavSectionIds | src/components/Navbar.tsx:8-13 | the sections are skills, experience, projects, contact, all distinct |
| Navbar.LastQualifying | src/components/Navbar.tsx:29-35 | the chosen section exists and sits at or above the position, no later one does, and none means no section qualifies |
| Navbar.SpyMonotone | src/components/Navbar.tsx:27-34 | scrolling further down never moves the active section up the list |
| Navbar.HighlightIsUnique | src/components/Navbar.tsx:86-94 | the initial "" highlights no link, and a section id highlights exactly one link |
| Navbar.SpyFinds | src/components/Navbar.tsx:29-34 | a scan that stops at a qualifying section with none after it has chosen that section |
| Navbar.SpyFindsNothing | src/components/Navbar.tsx:29-35 | a scan that runs off the front has chosen nothing |
| Navbar.NavTarget | src/components/Navbar.tsx:45-53 | a link click scrolls to the element named by the href without its '#' iff the document has it |
| Navbar.Nav.constructor | src/components/Navbar.tsx:16-18 | not scrolled, no active section, menu closed |
| Navbar.Nav.HandleScroll | src/components/Navbar.tsx:21-36 | scrolled iff scrollY > 100; the active section is the last one whose top is within scrollY + 100, else the previous value |
| Navbar.Nav.HandleNavClick | src/components/Navbar.tsx:44-56 | scrolls to the link's target iff it exists, and always closes the mobile menu |
| Navbar.Nav.SetMobileMenuOpen | src/components/Navbar.tsx:112 | the sheet's open state follows its open-change callback |
| ExperienceTimeline.FormatMonthParts | src/components/ExperienceTimeline.tsx:78-83 | the year is the text before the first '-', the month label comes from the text after it; later parts are ignored |
| ExperienceTimeline.FormatMonthOfYearMonth | src/components/ExperienceTimeline.tsx:78-83 | "YYYY-MM" with month 01..12 gives the three-letter month name, a space and the year |
| ExperienceTimeline.FormatMonthUndefined | src/components/ExperienceTimeline.tsx:80-82 | a month outside 1..12, or a missing month, prints as "undefined" before the year |
| ExperienceTimeline.FormatMayExample | src/components/ExperienceTimeline.tsx:78-83 | month "05" of any year is written "May" and the year |
| ExperienceTimeline.DateRangeToPresent | src/components/ExperienceTimeline.tsx:85-89 | an end of "Present" is kept verbatim after the formatted start |
| ExperienceTimeline.DateRangeBetween | src/components/ExperienceTimeline.tsx:85-89 | two dates are both formatted and joined by " - " |
| ExperienceTimeline.ConcatMapFirstUpper | src/components/ExperienceTimeline.tsx:93-95 | joining the words' upper-cased first characters gives the initials of the non-empty words in order |
| ExperienceTimeline.CompanyInitials | src/components/ExperienceTimeline.tsx:91-97 | at most two characters: the first of the initials of the space-separated words |
| ExperienceTimeline.InitialsOfWords | src/components/ExperienceTimeline.tsx:91-97 | two words separated by one or more spaces give their two upper-cased first letters |
| ExperienceTimeline.InitialsOfRcl | src/components/ExperienceTimeline.tsx:91-97 | "RCL Consulting" gives "RC" |
| ExperienceTimeline.InitialsOfDoubleSpace | src/components/ExperienceTimeline.tsx:91-97 | a doubled space adds no initial |
| ExperienceTimeline.InitialsOfTmu | src/components/ExperienceTimeline.tsx:91-97 | "Toronto Metropolitan University" gives "TM": only two initials are kept |
| ExperienceTimeline.TypeColor | src/components/ExperienceTimeline.tsx:99-112 | the default grey class is used iff the type is not internship, contract, freelance or founder |
| ExperienceTimeline.TypeColorsDistinct | src/components/ExperienceTimeline.tsx:99-112 | the four coloured types and the default get five different classes; full-time gets the default |
| ExperienceTimeline.TypeBadge | src/components/ExperienceTimeline.tsx:172-178 | no badge iff full-time; "Founder" for a founder; otherwise the raw type string |
| ExperienceTimeline.Bullets | src/components/ExperienceTimeline.tsx:189-204 | all impacts first, then all details when present, nothing else |
| ExperienceTimeline.DisplayedIsPrefix | src/components/ExperienceTimeline.tsx:246-247 | the shown entries are the first min(count, n), and "Load More" is offered iff some entry is hidden |
| ExperienceTimeline.LoadMoreShowsAll | src/components/ExperienceTimeline.tsx:238-247 | enough steps of three show every entry and withdraw "Load More" |
| ExperienceTimeline.DefaultShowsFixture | src/components/ExperienceTimeline.tsx:219 | with the default of six the three fixture entries all show and "Load More" is never offered |
| ExperienceTimeline.DefaultTimeline | src/components/ExperienceTimeline.tsx:217-247 | a timeline with the default maximum, once loaded, shows the whole fixture and cannot load more |
| ExperienceTimeline.Timeline.constructor | src/components/ExperienceTimeline.tsx:217-224 | no entries, loading, not loading more, count at the initial maximum |
| ExperienceTimeline.Timeline.DataLoaded | src/components/ExperienceTimeline.tsx:227-236 | the entries become the fixture and loading ends; the count is kept |
| ExperienceTimeline.Timeline.ClickLoadMore | src/components/ExperienceTimeline.tsx:337-345 | a round starts iff the button is shown and enabled; only the loading-more flag changes |
| ExperienceTimeline.Timeline.LoadMoreDone | src/components/ExperienceTimeline.tsx:238-244 | the count grows by three and the loading-more flag clears |
| ContactCTA.Address | src/components/ContactCTA.tsx:236 | `local@domain.tld` is as long as its parts plus the two separators |
| ContactCTA.CutAtLastDot | src/components/ContactCTA.tsx:236 | cuts at the last '.' into a prefix and a dot-free suffix, or reports there is no '.' |
| ContactCTA.CutAddress | src/components/ContactCTA.tsx:236 | cuts at the first '@' and the last '.' after it, reassembling the input, or reports one is missing |
| ContactCTA.LocalHasNoAt | src/components/ContactCTA.tsx:236 | a local part over the pattern's characters has no '@' |
| ContactCTA.DomainHasNoAt | src/components/ContactCTA.tsx:236 | a domain over the pattern's characters has no '@' |
| ContactCTA.LettersHaveNoAtOrDot | src/components/ContactCTA.tsx:236 | a top-level domain of letters has no '@' and no '.' |
| ContactCTA.FirstAt | src/components/ContactCTA.tsx:236 | the first '@' of `local@...` ends a local part that has none |
| ContactCTA.CutAtLastDotOf | src/components/ContactCTA.tsx:236 | the last '.' of `domain.tld` starts a dot-free top-level domain |
| ContactCTA.CutAddressAt | src/components/ContactCTA.tsx:236 | the address cut is the first '@' followed by the last-dot cut |
| ContactCTA.CutAddressOf | src/components/ContactCTA.tsx:236 | every address the pattern could match is cut into exactly its own parts |
| ContactCTA.EmailCheckIsPattern | src/components/ContactCTA.tsx:235-236 | the computed check accepts a string iff the case-insensitive email pattern matches it |
| ContactCTA.EmailHasOneAt | src/components/ContactCTA.tsx:236 | an accepted address contains exactly one '@' |
| ContactCTA.NativeEmailOfPattern | src/components/ContactCTA.tsx:248 | for an address the pattern accepts, the browser's `type="email"` check passes iff every label of its host is valid |
| ContactCTA.EmptyLabelRejected | src/components/ContactCTA.tsx:236-248 | an address with two dots in a row in the host matches the pattern but fails the browser's check |
| ContactCTA.HyphenLabelRejected | src/components/ContactCTA.tsx:236-248 | an address whose host starts with '-' matches the pattern but fails the browser's check |
| ContactCTA.FieldRules | src/components/ContactCTA.tsx:208-286 | name valid iff at least 2 characters, message iff at least 10, email iff it matches the pattern; subject always valid |
| ContactCTA.FormValidMeans | src/components/ContactCTA.tsx:203-286 | a form reaches `onSubmit` iff name has at least 2 characters, message at least 10, and the email matches the pattern and passes the browser's check |
| ContactCTA.Gate | src/components/ContactCTA.tsx:40-51 | rate-limited iff under 5000 ms since the last accepted submission; spam iff not rate-limited and the honeypot is filled |
| ContactCTA.PayloadOf | src/components/ContactCTA.tsx:63-68 | the request body carries the four visible fields unchanged |
| ContactCTA.PayloadIgnoresHoneypot | src/components/ContactCTA.tsx:63-68 | the request body does not depend on the honeypot |
| ContactCTA.ContactForm.constructor | src/components/ContactCTA.tsx:25-37 | empty fields, not submitting, not submitted, last submission at 0 |
| ContactCTA.ContactForm.Edit | src/components/ContactCTA.tsx:212-223 | while the form is on screen and enabled, the fields become what the visitor typed; the flags are kept |
| ContactCTA.ContactForm.Submit | src/components/ContactCTA.tsx:39-54 | while the form is on screen and enabled: invalid fields stop the submission, then the gate's rejection; otherwise the payload is sent and the form is marked submitting at `now` |
| ContactCTA.ContactForm.Settle | src/components/ContactCTA.tsx:71-83 | after a request, only an ok response marks the form sent and resets it; in every case submitting ends |
| ContactCTA.ContactForm.SendAnother | src/components/ContactCTA.tsx:96-130 | on the success screen, returns to the form; nothing else changes |
| ContactCTA.SubmitTwice | src/components/ContactCTA.tsx:41-45 | after a sent submission, whatever its outcome, a valid second form within 5000 ms is rejected for the rate limit; an invalid one is stopped before |
| LoadingOverlay.Overlay.constructor | src/components/LoadingOverlay.tsx:12-50 | mounting arms the load timer at +1500 and the idle timer at +3000; nothing shown as idle or exiting |
| LoadingOverlay.Overlay.HandleExit | src/components/LoadingOverlay.tsx:52-57 | marks the overlay exiting and schedules `onReady` 400 ms later |
| LoadingOverlay.Overlay.FireReadyTimer | src/components/LoadingOverlay.tsx:43-68 | becomes ready, re-arms the idle timer with a callback that saw ready, and starts the exit unless already exiting |
| LoadingOverlay.Overlay.FireIdleTimer | src/components/LoadingOverlay.tsx:33-41 | shows the idle message iff its callback saw not-ready, which needs the load timer still pending 3000 ms after mount |
| LoadingOverlay.Overlay.ClickContinue | src/components/LoadingOverlay.tsx:59-61 | acts iff the button is on screen (idle shown, not exiting), and then takes the exit path |
| LoadingOverlay.Overlay.FireExitTimer | src/components/LoadingOverlay.tsx:54-56 | `onReady` runs for the first and only time, at least 400 ms after the exit started |
| LoadingOverlay.Overlay.Unmount | src/components/LoadingOverlay.tsx:40-49 | the effect cleanups clear the load and idle timers; the exit timer has none |
| LoadingOverlay.Overlay.Render | src/components/LoadingOverlay.tsx:70-72 | renders nothing iff exiting, and the Continue button iff idle and not exiting |
| LoadingOverlay.OnTime | src/components/LoadingOverlay.tsx:43-68 | with on-time timers `onReady` runs once, 1900 ms after mount, and the idle message never shows |
| HomePage.WrappersAreNavTargets | src/app/page.tsx:60-72 | the section wrappers are exactly the navbar's targets, in order |
| HomePage.Page.constructor | src/app/page.tsx:13-14 | loading, not transitioning, with a freshly mounted overlay |
| HomePage.Page.LoadTimerFired | src/app/page.tsx:46-50 | the overlay's load timer reaches the overlay; the page state is kept |
| HomePage.Page.IdleTimerFired | src/app/page.tsx:46-50 | the overlay's idle timer reaches the overlay; the page state is kept |
| HomePage.Page.ContinueClicked | src/app/page.tsx:46-50 | "Continue anyway" reaches the overlay; the page state is kept |
| HomePage.Page.ExitTimerFired | src/app/page.tsx:16-18 | `onReady` starts the transition and schedules the end of loading 400 ms later |
| HomePage.Page.TransitionTimerFired | src/app/page.tsx:18-21 | loading and transitioning end and the overlay unmounts, at least 400 ms after `onReady` |
| HomePage.Page.View | src/app/page.tsx:46-77 | overlay iff loading, fading iff transitioning, navbar and the four wrappers iff loaded |
| HomePage.FadingOverlayIsEmpty | src/app/page.tsx:49 | while the page fades the overlay, the overlay already renders nothing |
| HomePage.InterceptClick | src/app/page.tsx:25-37 | a click is intercepted iff its href starts with '#', and scrolls to the rest of the href iff that element exists |
| HomePage.NavClicksReachWrappers | src/components/Navbar.tsx:84-97 | a navbar link is a button without an href, so the page's handler lets it through, and the navbar's handler scrolls it to its own wrapper |
| HomePage.ContactAnchorScrolls | src/components/ProjectsSection.tsx:335-337 | the "Contact Me" anchors are intercepted and scroll to the contact wrapper |
| HomePage.ModalLinksGoNowhere | src/components/ProjectsSection.tsx:428-448 | the modal's demo and repository anchors ("#demo", "#code") are intercepted and, with no such elements, scroll nowhere |
| HomePage.NormalLoad | src/app/page.tsx:16-22 | with on-time timers the sections replace the overlay 2300 ms after mount, without the idle message |
| HomePage.ContinueAnywayLoad | src/app/page.tsx:16-22 | with a late load timer, "Continue anyway" at time c reveals the sections at c + 800 and cancels the load timer |

## Left out

- Rendering, styling and animation are not modelled: markup, Tailwind classes (other than the fading class and the repository button's width), framer-motion, skeleton shapes and icons. The markup that does decide state is modelled: the email input's `type`, the disabled controls while a request is in flight, the success screen replacing the form, and which links carry an `href`.
- IntersectionObserver geometry is not modelled. The observer's entries are an input sequence of (id, intersecting) pairs.
- `scrollIntoView`, `window.open`, `fetch`, toasts, `console.error` and `matchMedia`/`prefersReducedMotion` are not modelled. They are I/O or do not change the modelled state. A request's outcome is an input to `Settle`, and a scroll is the id returned.
- Real timer concurrency and React's batching and re-rendering are not modelled. Each timer callback is one atomic event fired at or after its due time.
- The simulated load delays of the projects section (1000 ms) and the timeline are events with no clock. Their durations decide nothing other components see.
- `window.scrollY` and `offsetTop` are integers and the document is a map from id to `offsetTop`.
- The Navbar's own click handler and the page's document listener are modelled separately, not composed on one click. `HomePage.NavClicksReachWrappers` states both halves for a navbar click.
- HomePage.InterceptClick: only looks at the clicked element's own href, as the source does. A click on a child of an anchor is not intercepted.
- `parseInt` is modelled for an optional sign and decimal digits only. Leading whitespace and the "0x" prefix are not modelled; no date in the data has them.
- `toUpperCase` is modelled on ASCII letters only. String lengths count characters, not UTF-16 code units.
- The browser's check on the email input is modelled on ASCII addresses. Internationalised domain names and the browser's trimming of surrounding whitespace are not modelled.
- The card's Demo button opens `demoUrl` with `window.open`. It has no `href`, so the page's handler does not intercept it; the opened tab is not modelled.
- The mock data keeps only the fields the logic reads, including the projects' links. Descriptions, images and the wording of impacts are not modelled.
- The initial scroll-spy call on mount (src/components/Navbar.tsx:39) is `Navbar.Nav.HandleScroll` on a new `Nav`, not a separate method.
- HeroSection, ProfileSection and layout.tsx are not part of this model. They carry no state the core reads.
- The Download Resume and social buttons only show toasts and are not modelled.
