/** The experience timeline: month and date-range formatting, company
    initials, the colour and label of the entry-type badge, the bullets of an
    entry, and the "Load More" pagination. */
module ExperienceTimeline {
  import opened Util

  datatype EntryType = FullTime | Internship | Contract | Freelance | Founder

  /** The string value the source stores for each entry type. */
  function TypeName(t: EntryType): string
  {
    match t
    case FullTime => "full-time"
    case Internship => "internship"
    case Contract => "contract"
    case Freelance => "freelance"
    case Founder => "founder"
  }

  datatype Entry = Entry(
    id: string,
    title: string,
    company: string,
    startDate: string,
    endDate: string,
    logo: Option<string>,
    impacts: seq<string>,
    details: Option<seq<string>>,
    kind: EntryType)

  /** The three authored entries (company names as they are stored). */
  function MockExperiences(): seq<Entry>
  {
    [ Entry("1", "Software Engineering Intern", "Stealth Startup â€” AI Legal Document Parsing",
            "2025-05", "Present", Some("/stealth.png"),
            ["frontend lead", "component library", "form validation"], None, Founder),
      Entry("2", "Software Engineering Intern", "RCL Consulting",
            "2025-01", "2025-04", Some("/consultingimage.png"),
            [], Some(["public website", "deployment pipelines", "analytics"]), Internship),
      Entry("3", "Research Fellow", "Toronto Metropolitan University",
            "2024-06", "2024-07", Some("/TMU.jpg"),
            ["team lead", "collaboration"], None, Internship) ]
  }

  const MonthNames: seq<string> :=
    ["Jan", "Feb", "Mar", "Apr", "May", "Jun", "Jul", "Aug", "Sep", "Oct", "Nov", "Dec"]

  /** `monthNames[parseInt(month) - 1]` as it prints in a template string:
      "undefined" when the number is missing or outside 1..12. */
  function MonthLabel(month: Option<int>): string
  {
    if month.Some? && 1 <= month.value <= 12 then MonthNames[month.value - 1] else "undefined"
  }

  /** `formatMonth`: "YYYY-MM" becomes "Mon YYYY". */
  function FormatMonth(dateStr: string): string
  {
    var parts := Split(dateStr, '-');
    var month := if |parts| >= 2 then ParseInt(parts[1]) else None;
    MonthLabel(month) + " " + parts[0]
  }

  /** The year is what stands before the first '-', the month what stands
      between it and the next '-'. */
  lemma FormatMonthParts(year: string, month: string, rest: string)
    requires '-' !in year && '-' !in month
    ensures FormatMonth(year + "-" + month) == MonthLabel(ParseInt(month)) + " " + year
    ensures FormatMonth(year + "-" + month + "-" + rest) == MonthLabel(ParseInt(month)) + " " + year
  {
    SplitAfter(year, month, '-');
    SplitNoSep(month, '-');
    assert year + "-" + month == year + ['-'] + month;
    SplitAfter(year, month + "-" + rest, '-');
    SplitAfter(month, rest, '-');
    assert year + "-" + month + "-" + rest == year + ['-'] + (month + ['-'] + rest);
  }

  /** For "YYYY-MM" with a month from 01 to 12 the result is the month's
      three-letter name, a space and the year. */
  lemma {:induction false} FormatMonthOfYearMonth(year: string, m: nat)
    requires '-' !in year
    requires 1 <= m <= 12
    ensures FormatMonth(year + "-" + TwoDigits(m)) == MonthNames[m - 1] + " " + year
  {
    var mm := TwoDigits(m);
    assert '-' !in mm by {
      assert mm[0] != '-' && mm[1] != '-';
    }
    FormatMonthParts(year, mm, "");
    ParseIntDigits(mm, "");
    assert mm + "" == mm;
    TwoDigitsValue(m);
  }

  /** A month outside 01..12, or none at all, prints as "undefined". */
  lemma FormatMonthUndefined(year: string, month: string)
    requires '-' !in year && '-' !in month
    requires match ParseInt(month) case Some(n) => n < 1 || n > 12 case None => true
    ensures FormatMonth(year + "-" + month) == "undefined " + year
    ensures FormatMonth(year) == "undefined " + year
  {
    FormatMonthParts(year, month, "");
    SplitNoSep(year, '-');
  }

  /** `formatDateRange`: the end "Present" is passed through unformatted. */
  function FormatDateRange(start: string, end: string): string
  {
    var endFormatted := if end == "Present" then "Present" else FormatMonth(end);
    FormatMonth(start) + " - " + endFormatted
  }

  /** Month "05" of any year is written "May" and the year, as '2025-05'
      is written "May 2025". */
  lemma FormatMayExample(year: string)
    requires '-' !in year
    ensures FormatMonth(year + "-05") == "May " + year
  {
    FormatMonthOfYearMonth(year, 5);
    assert TwoDigits(5) == "05";
    assert year + "-" + TwoDigits(5) == year + "-05";
  }

  /** A range that ends "Present" formats its start and keeps the end word:
      '2025-05' to 'Present' is "May 2025 - Present". */
  lemma DateRangeToPresent(year: string, m: nat)
    requires '-' !in year && 1 <= m <= 12
    ensures FormatDateRange(year + "-" + TwoDigits(m), "Present") == MonthNames[m - 1] + " " + year + " - Present"
  {
    FormatMonthOfYearMonth(year, m);
  }

  /** Any other end is formatted like the start: '2025-01' to '2025-04' is
      "Jan 2025 - Apr 2025". */
  lemma DateRangeBetween(startYear: string, startMonth: nat, endYear: string, endMonth: nat)
    requires '-' !in startYear && 1 <= startMonth <= 12
    requires '-' !in endYear && 1 <= endMonth <= 12
    ensures FormatDateRange(startYear + "-" + TwoDigits(startMonth), endYear + "-" + TwoDigits(endMonth))
      == MonthNames[startMonth - 1] + " " + startYear + " - " + MonthNames[endMonth - 1] + " " + endYear
  {
    FormatMonthOfYearMonth(startYear, startMonth);
    FormatMonthOfYearMonth(endYear, endMonth);
    var end := endYear + "-" + TwoDigits(endMonth);
    assert end[|endYear|] == '-';
    assert '-' !in "Present";
  }

  /** `word.charAt(0).toUpperCase()`: "" for an empty word. */
  function FirstUpper(word: string): string
  {
    if |word| == 0 then "" else [ToUpperAscii(word[0])]
  }

  /** `words.map(word => word.charAt(0).toUpperCase())`. */
  function MapFirstUpper(words: seq<string>): (r: seq<string>)
    ensures |r| == |words|
  {
    if |words| == 0 then [] else [FirstUpper(words[0])] + MapFirstUpper(words[1..])
  }

  /** `strings.join('')`. */
  function Concat(strings: seq<string>): string
  {
    if |strings| == 0 then "" else strings[0] + Concat(strings[1..])
  }

  /** The upper-cased first letters of the non-empty words, in order. */
  function Heads(words: seq<string>): string
  {
    if |words| == 0 then ""
    else if |words[0]| == 0 then Heads(words[1..])
    else [ToUpperAscii(words[0][0])] + Heads(words[1..])
  }

  lemma {:induction false} ConcatMapFirstUpper(words: seq<string>)
    ensures Concat(MapFirstUpper(words)) == Heads(words)
  {
    if |words| > 0 {
      ConcatMapFirstUpper(words[1..]);
      assert MapFirstUpper(words)[1..] == MapFirstUpper(words[1..]);
    }
  }

  /** `getCompanyInitials`: at most two characters, and they are the first
      of the upper-cased initials of the ' '-separated words (empty words
      give nothing). */
  function CompanyInitials(company: string): (r: string)
    ensures |r| <= 2
    ensures var h := Heads(Split(company, ' '));
      |r| == Min(2, |h|) && r == h[..|r|]
  {
    var words := Split(company, ' ');
    var joined := Concat(MapFirstUpper(words));
    ConcatMapFirstUpper(words);
    joined[..Min(2, |joined|)]
  }

  /** Two or more words give the first letters of the first two non-empty
      words; extra spaces between them change nothing. */
  lemma {:induction false} InitialsOfWords(first: string, spaces: nat, second: string, rest: string)
    requires |first| > 0 && |second| > 0
    requires ' ' !in first && ' ' !in second
    ensures CompanyInitials(first + Spaces(spaces + 1) + second + rest) ==
      [ToUpperAscii(first[0]), ToUpperAscii(second[0])]
  {
    var tail := second + rest;
    var whole := first + Spaces(spaces + 1) + second + rest;
    assert whole == first + Spaces(spaces + 1) + tail;
    SplitAfterSpaces(first, spaces, tail);
    var words := Split(tail, ' ');
    var all := [first] + Seq(spaces, "") + words;
    assert Split(whole, ' ') == all;
    assert all[1..] == Seq(spaces, "") + words;
    HeadsOfEmpties(spaces, words);
    SplitFirstWord(second, rest);
    var h := Heads(all);
    assert h == [ToUpperAscii(first[0])] + ([ToUpperAscii(second[0])] + Heads(words[1..]));
    assert h[..2] == [ToUpperAscii(first[0]), ToUpperAscii(second[0])];
  }

  function Spaces(n: nat): (s: string)
    ensures |s| == n && forall i :: 0 <= i < n ==> s[i] == ' '
  {
    if n == 0 then "" else [' '] + Spaces(n - 1)
  }

  lemma {:induction false} SplitAfterSpaces(first: string, n: nat, tail: string)
    requires ' ' !in first
    decreases n
    ensures Split(first + Spaces(n + 1) + tail, ' ') == [first] + Seq(n, "") + Split(tail, ' ')
  {
    assert first + Spaces(n + 1) + tail == first + [' '] + (Spaces(n) + tail);
    SplitAfter(first, Spaces(n) + tail, ' ');
    if n == 0 {
      assert Spaces(0) + tail == tail;
    } else {
      SplitAfterSpaces("", n - 1, tail);
      assert "" + Spaces(n) + tail == Spaces(n) + tail;
      assert Seq(n, "") == [""] + Seq(n - 1, "");
    }
  }

  function Seq(n: nat, x: string): (s: seq<string>)
    ensures |s| == n && forall i :: 0 <= i < n ==> s[i] == x
  {
    if n == 0 then [] else [x] + Seq(n - 1, x)
  }

  lemma {:induction false} HeadsOfEmpties(n: nat, words: seq<string>)
    ensures Heads(Seq(n, "") + words) == Heads(words)
  {
    if n > 0 {
      assert (Seq(n, "") + words)[1..] == Seq(n - 1, "") + words;
      HeadsOfEmpties(n - 1, words);
    } else {
      assert Seq(0, "") + words == words;
    }
  }

  lemma {:induction false} SplitFirstWord(word: string, rest: string)
    requires |word| > 0 && ' ' !in word
    ensures |Split(word + rest, ' ')[0]| > 0 && Split(word + rest, ' ')[0][0] == word[0]
  {
    var s := word + rest;
    assert s[0] == word[0] && s[0] != ' ';
  }

  /** A company of the fixture. */
  lemma InitialsOfRcl()
    ensures CompanyInitials("RCL Consulting") == "RC"
  {
    var first, second := "RCL", "Consulting";
    assert ' ' !in first && ' ' !in second;
    InitialsOfWords(first, 0, second, "");
    assert Spaces(1) == " ";
    assert first + " " + second + "" == "RCL Consulting";
  }

  /** A doubled space gives nothing for the empty word between. */
  lemma InitialsOfDoubleSpace()
    ensures CompanyInitials("RCL  Consulting") == "RC"
  {
    var first, second := "RCL", "Consulting";
    assert ' ' !in first && ' ' !in second;
    InitialsOfWords(first, 1, second, "");
    assert Spaces(2) == "  ";
    assert first + "  " + second + "" == "RCL  Consulting";
  }

  /** Only the first two initials of a three-word name are kept. */
  lemma InitialsOfTmu()
    ensures CompanyInitials("Toronto Metropolitan University") == "TM"
  {
    TmuWords();
    InitialsOfWords("Toronto", 0, "Metropolitan", " University");
  }

  lemma TmuWords()
    ensures "Toronto" + Spaces(1) + "Metropolitan" + " University" == "Toronto Metropolitan University"
    ensures ' ' !in "Toronto" && ' ' !in "Metropolitan"
  {
    assert Spaces(1) == " ";
  }

  const DefaultColor := "bg-gray-100 text-gray-800"

  /** `getTypeColor`. */
  function TypeColor(kind: string): (cls: string)
    ensures cls == DefaultColor <==> kind !in {"internship", "contract", "freelance", "founder"}
  {
    match kind
    case "internship" => "bg-blue-100 text-blue-800"
    case "contract" => "bg-green-100 text-green-800"
    case "freelance" => "bg-purple-100 text-purple-800"
    case "founder" => "bg-red-100 text-red-800"
    case _ => DefaultColor
  }

  /** The four coloured types get four different classes, and full-time the
      default. */
  lemma TypeColorsDistinct()
    ensures |{TypeColor("internship"), TypeColor("contract"), TypeColor("freelance"), TypeColor("founder"), DefaultColor}| == 5
    ensures TypeColor(TypeName(FullTime)) == DefaultColor
  {
  }

  /** The type badge: none for full-time, "Founder" for a founder, else the
      raw type string. */
  function TypeBadge(kind: EntryType): (badge: Option<string>)
    ensures badge.None? <==> kind == FullTime
    ensures badge.Some? && kind != Founder ==> badge.value == TypeName(kind)
    ensures kind == Founder ==> badge == Some("Founder")
  {
    if kind == FullTime then None
    else Some(if kind == Founder then "Founder" else TypeName(kind))
  }

  /** The bullets of an entry: all impacts, then all details when present. */
  function Bullets(e: Entry): (r: seq<string>)
    ensures |e.impacts| <= |r| && r[..|e.impacts|] == e.impacts
    ensures e.details.None? ==> r == e.impacts
    ensures e.details.Some? ==> r[|e.impacts|..] == e.details.value
  {
    e.impacts + (if e.details.Some? then e.details.value else [])
  }

  /** `list.slice(0, end)`: a negative end counts from the back. */
  function SliceTo<T>(list: seq<T>, end: int): seq<T>
  {
    if end >= 0 then list[..Min(end, |list|)] else list[..Max(0, |list| + end)]
  }

  /** The entries shown when `count` of them may be. */
  function Displayed(experiences: seq<Entry>, count: int): seq<Entry>
  {
    SliceTo(experiences, count)
  }

  predicate HasMoreEntries(experiences: seq<Entry>, count: int)
  {
    count < |experiences|
  }

  /** For a non-negative count the shown entries are the first
      min(count, |experiences|) ones, and "Load More" is offered exactly when
      some entry is not shown. */
  lemma DisplayedIsPrefix(experiences: seq<Entry>, count: int)
    requires count >= 0
    ensures var shown := Displayed(experiences, count);
      |shown| == Min(count, |experiences|)
      && shown <= experiences
      && (HasMoreEntries(experiences, count) <==> |shown| < |experiences|)
  {
  }

  /** Enough "Load More" steps show every entry. */
  lemma LoadMoreShowsAll(experiences: seq<Entry>, initial: int, steps: nat)
    requires initial + 3 * steps >= |experiences|
    ensures Displayed(experiences, initial + 3 * steps) == experiences
    ensures !HasMoreEntries(experiences, initial + 3 * steps)
  {
  }

  const DefaultMaxInitialEntries := 6
  const LoadMoreStep := 3

  /** The timeline's own state. */
  class Timeline {
    const maxInitialEntries: int
    var experiences: seq<Entry>
    var displayedCount: int
    var isLoading: bool
    var isLoadingMore: bool
    /** How many "Load More" rounds have completed. */
    ghost var loadMores: nat

    ghost predicate Valid()
      reads this
    {
      displayedCount == maxInitialEntries + LoadMoreStep * loadMores
    }

    constructor (maxInitialEntries: int)
      ensures Valid() && this.maxInitialEntries == maxInitialEntries
      ensures displayedCount == maxInitialEntries && loadMores == 0
      ensures experiences == [] && isLoading && !isLoadingMore
    {
      this.maxInitialEntries := maxInitialEntries;
      experiences := [];
      displayedCount := maxInitialEntries;
      isLoading := true;
      isLoadingMore := false;
      loadMores := 0;
    }

    /** The simulated data load has finished. */
    method DataLoaded()
      requires Valid()
      modifies this
      ensures Valid()
      ensures experiences == MockExperiences() && !isLoading
      ensures displayedCount == old(displayedCount) && isLoadingMore == old(isLoadingMore)
      ensures loadMores == old(loadMores)
    {
      experiences := MockExperiences();
      isLoading := false;
    }

    /** Whether the "Load More" button is shown and enabled. */
    function CanLoadMore(): bool
      reads this
    {
      !isLoading && |experiences| > 0 && HasMoreEntries(experiences, displayedCount) && !isLoadingMore
    }

    /** A click on "Load More"; it does something only when the button is
        there and enabled. */
    method ClickLoadMore() returns (started: bool)
      requires Valid()
      modifies this
      ensures Valid()
      ensures started == old(CanLoadMore())
      ensures isLoadingMore == (old(isLoadingMore) || started)
      ensures experiences == old(experiences) && displayedCount == old(displayedCount)
      ensures isLoading == old(isLoading) && loadMores == old(loadMores)
    {
      started := CanLoadMore();
      if started {
        isLoadingMore := true;
      }
    }

    /** The simulated delay of a "Load More" round has elapsed: three more
        entries may be shown. */
    method LoadMoreDone()
      requires Valid() && isLoadingMore
      modifies this
      ensures Valid()
      ensures displayedCount == old(displayedCount) + LoadMoreStep
      ensures loadMores == old(loadMores) + 1 && !isLoadingMore
      ensures experiences == old(experiences) && isLoading == old(isLoading)
    {
      displayedCount := displayedCount + LoadMoreStep;
      isLoadingMore := false;
      loadMores := loadMores + 1;
    }

    function DisplayedExperiences(): seq<Entry>
      reads this
    {
      Displayed(experiences, displayedCount)
    }
  }

  /** With the default of six, the three fixture entries are all shown at
      once and "Load More" is never offered. */
  lemma DefaultShowsFixture()
    ensures Displayed(MockExperiences(), DefaultMaxInitialEntries) == MockExperiences()
    ensures !HasMoreEntries(MockExperiences(), DefaultMaxInitialEntries)
  {
    LoadMoreShowsAll(MockExperiences(), DefaultMaxInitialEntries, 0);
  }

  /** The timeline as the page mounts it, without a `maxInitialEntries`
      prop, once its data has loaded. */
  method DefaultTimeline() returns (t: Timeline)
    ensures fresh(t) && t.Valid()
    ensures t.DisplayedExperiences() == MockExperiences() && !t.CanLoadMore()
  {
    t := new Timeline(DefaultMaxInitialEntries);
    t.DataLoaded();
    DefaultShowsFixture();
  }
}
