/**
 * The resume search screen (src/pages/Resumes/Resumes.tsx): the nine-part
 * filter over the resume list, the six sort modes, page slicing, and the
 * page state (`filters`, `searchQuery`, `currentPage`) the handlers update.
 * The resume list is the bundled data file, given to the constructor.
 */
module Resumes {
  import Text
  import Listing
  import Filters

  /** The parts of a resume record the screen filters and sorts on.
      `lastActive` is the time of the last activity in milliseconds. */
  datatype Resume = Resume(
    name: string,
    title: string,
    skills: seq<string>,
    city: string,
    metro: string,
    expectedSalary: int,
    years: real,
    availability: string,
    languages: seq<string>,
    degree: string,
    lastActive: int)

  const AvailabilityKey := "availability"
  const SkillsKey := "skills"
  const LanguagesKey := "languages"
  const EducationKey := "education"

  /** The multi-select keys of this screen's `FilterState`. */
  const ListKeys: set<string> := {AvailabilityKey, SkillsKey, LanguagesKey, EducationKey}

  /** The values chosen under a multi-select key. */
  function Selected(f: Filters.FilterState, key: string): seq<string> {
    if key in f.lists then f.lists[key] else []
  }

  /** The search box: the query occurs, ignoring case, in the name, the title
      or one of the skills. */
  predicate MatchesSearch(r: Resume, q: string) {
    Text.IncludesIgnoringCase(r.name, q) || Text.IncludesIgnoringCase(r.title, q) ||
    (exists i :: 0 <= i < |r.skills| && Text.IncludesIgnoringCase(r.skills[i], q))
  }

  predicate MatchesCity(r: Resume, f: Filters.FilterState) {
    f.city == "" || Text.IncludesIgnoringCase(r.city, f.city)
  }

  predicate MatchesMetro(r: Resume, f: Filters.FilterState) {
    f.metro == "" || Text.IncludesIgnoringCase(r.metro, f.metro)
  }

  predicate MatchesSalary(r: Resume, f: Filters.FilterState) {
    f.salaryRange.0 <= r.expectedSalary <= f.salaryRange.1
  }

  predicate MatchesExperience(r: Resume, f: Filters.FilterState) {
    f.experienceRange.0 <= r.years <= f.experienceRange.1
  }

  /** Every selected value is among the resume's values. */
  predicate HasAll(values: seq<string>, selected: seq<string>) {
    forall s :: s in selected ==> s in values
  }

  predicate MatchesLists(r: Resume, f: Filters.FilterState) {
    (Selected(f, AvailabilityKey) == [] || r.availability in Selected(f, AvailabilityKey)) &&
    (Selected(f, SkillsKey) == [] || HasAll(r.skills, Selected(f, SkillsKey))) &&
    (Selected(f, LanguagesKey) == [] || HasAll(r.languages, Selected(f, LanguagesKey))) &&
    (Selected(f, EducationKey) == [] || r.degree in Selected(f, EducationKey))
  }

  /** The `filteredResumes` predicate: all nine conditions at once. */
  predicate Matches(r: Resume, f: Filters.FilterState, q: string) {
    MatchesSearch(r, q) && MatchesCity(r, f) && MatchesMetro(r, f) &&
    MatchesSalary(r, f) && MatchesExperience(r, f) && MatchesLists(r, f)
  }

  /** `resumes.filter(...)`: exactly the input resumes that match. */
  function Filtered(rs: seq<Resume>, f: Filters.FilterState, q: string): (r: seq<Resume>)
    ensures forall x :: x in r <==> x in rs && Matches(x, f, q)
    ensures multiset(r) <= multiset(rs)
  {
    Listing.KeepMembers(rs, x => Matches(x, f, q));
    Listing.Keep(rs, x => Matches(x, f, q))
  }

  /** The sort comparator `(a, b) => ...` as a key to sort by in ascending
      order; an unknown mode (`relevance`) compares everything equal. */
  function Rank(mode: string): Resume -> real {
    if mode == "lastActive" then (x: Resume) => -(x.lastActive as real)
    else if mode == "experience-desc" then (x: Resume) => -x.years
    else if mode == "experience-asc" then (x: Resume) => x.years
    else if mode == "salary-desc" then (x: Resume) => -(x.expectedSalary as real)
    else if mode == "salary-asc" then (x: Resume) => x.expectedSalary as real
    else (x: Resume) => 0.0
  }

  const SortModes: set<string> := {"lastActive", "experience-desc", "experience-asc", "salary-desc", "salary-asc"}

  /** The filtered list in the order the screen shows it. */
  function Arranged(rs: seq<Resume>, f: Filters.FilterState, q: string): seq<Resume> {
    Listing.SortBy(Filtered(rs, f, q), Rank(f.sortBy))
  }

  /** The sort only rearranges the filtered resumes, and orders them as its
      mode says; `relevance` keeps the data file's order. */
  lemma {:induction false} ArrangedOrder(rs: seq<Resume>, f: Filters.FilterState, q: string)
    ensures var r := Arranged(rs, f, q);
      multiset(r) == multiset(Filtered(rs, f, q)) &&
      (f.sortBy == "lastActive" ==> forall i, j :: 0 <= i < j < |r| ==> r[j].lastActive <= r[i].lastActive) &&
      (f.sortBy == "experience-desc" ==> forall i, j :: 0 <= i < j < |r| ==> r[j].years <= r[i].years) &&
      (f.sortBy == "experience-asc" ==> forall i, j :: 0 <= i < j < |r| ==> r[i].years <= r[j].years) &&
      (f.sortBy == "salary-desc" ==> forall i, j :: 0 <= i < j < |r| ==> r[j].expectedSalary <= r[i].expectedSalary) &&
      (f.sortBy == "salary-asc" ==> forall i, j :: 0 <= i < j < |r| ==> r[i].expectedSalary <= r[j].expectedSalary) &&
      (f.sortBy !in SortModes ==> r == Filtered(rs, f, q))
  {
    var s := Filtered(rs, f, q);
    var rank := Rank(f.sortBy);
    Listing.SortByCorrect(s, rank);
    if f.sortBy !in SortModes {
      Listing.SortByConstant(s, rank);
    }
  }

  /** Everything the screen lists is an input resume that matches. */
  lemma ArrangedMembers(rs: seq<Resume>, f: Filters.FilterState, q: string)
    ensures forall x :: x in Arranged(rs, f, q) <==> x in rs && Matches(x, f, q)
  {
    ArrangedOrder(rs, f, q);
    var a := Arranged(rs, f, q);
    forall x
      ensures x in a <==> x in Filtered(rs, f, q)
    {
      assert x in a <==> x in multiset(a);
    }
  }

  /** An empty query matches every resume. */
  lemma EmptySearchMatches(r: Resume)
    ensures MatchesSearch(r, "")
  {
    Text.EmptyIsIncluded(Text.ToLower(r.name));
  }

  /** With no city, metro or multi-select filter, only the search and the two
      ranges decide. */
  lemma UnsetFiltersMatch(r: Resume, f: Filters.FilterState, q: string)
    requires f.city == "" && f.metro == ""
    requires forall k :: k in f.lists ==> f.lists[k] == []
    ensures Matches(r, f, q) <==> MatchesSearch(r, q) && MatchesSalary(r, f) && MatchesExperience(r, f)
  {
  }

  /** On a fresh screen a resume is listed exactly when its expected salary is
      between 50000 and 300000 and its experience between 0 and 10 years,
      both ends included. */
  lemma InitialListing(r: Resume)
    ensures Matches(r, Filters.Initial(ListKeys), "") <==>
      Filters.MinSalary <= r.expectedSalary <= Filters.MaxSalary && 0.0 <= r.years <= Filters.MaxExperience
  {
    EmptySearchMatches(r);
    UnsetFiltersMatch(r, Filters.Initial(ListKeys), "");
  }

  class ResumesPage {
    const resumes: seq<Resume>
    var filters: Filters.FilterState
    var searchQuery: string
    var currentPage: int

    ghost predicate Valid()
      reads this
    {
      Filters.WellFormed(filters) && filters.lists.Keys == ListKeys &&
      filters.perPage > 0 && currentPage >= 1
    }

    constructor (resumes: seq<Resume>)
      ensures Valid() && this.resumes == resumes
      ensures filters == Filters.Initial(ListKeys) && searchQuery == "" && currentPage == 1
    {
      this.resumes := resumes;
      filters := Filters.Initial(ListKeys);
      searchQuery := "";
      currentPage := 1;
    }

    /** The resumes of the current page. */
    function Shown(): seq<Resume>
      reads this
      requires filters.perPage > 0
    {
      Listing.PageItems(Arranged(resumes, filters, searchQuery), currentPage, filters.perPage)
    }

    function TotalPages(): nat
      reads this
      requires filters.perPage > 0
    {
      Listing.TotalPages(|Arranged(resumes, filters, searchQuery)|, filters.perPage)
    }

    /** The search box; the page stays where it is. */
    method SetSearchQuery(q: string)
      requires Valid()
      modifies this`searchQuery
      ensures Valid() && searchQuery == q && filters == old(filters) && currentPage == old(currentPage)
    {
      searchQuery := q;
    }

    /** `handleFilterChange(key, value)`; the page-size select only offers 10, 20 and 50. */
    method HandleFilterChange(key: string, value: Filters.Value)
      requires Valid() && Filters.Fits(filters, key, value)
      requires key == Filters.PerPageKey ==> value.n in Filters.PerPageOptions
      modifies this`filters, this`currentPage
      ensures Valid() && filters == Filters.Set(old(filters), key, value)
      ensures currentPage == 1 && searchQuery == old(searchQuery)
    {
      filters := Filters.Set(filters, key, value);
      currentPage := 1;
    }

    /** `toggleFilter(key, value)` on a multi-select key. */
    method ToggleFilter(key: string, value: string)
      requires Valid() && key in filters.lists
      modifies this`filters, this`currentPage
      ensures Valid() && filters == Filters.Toggle(old(filters), key, value)
      ensures currentPage == 1 && searchQuery == old(searchQuery)
    {
      filters := Filters.Toggle(filters, key, value);
      currentPage := 1;
    }

    /** `clearFilter(name)`; the page is not reset. */
    method ClearFilter(name: string)
      requires Valid() && name !in Filters.NumericKeys
      modifies this`filters
      ensures Valid() && filters == Filters.Clear(old(filters), name)
      ensures currentPage == old(currentPage) && searchQuery == old(searchQuery)
    {
      filters := Filters.Clear(filters, name);
    }

    /** The "Clear All" button above the chips. */
    method ClearAll()
      requires Valid()
      modifies this`filters
      ensures Valid() && filters == Filters.ClearAll(old(filters))
      ensures currentPage == old(currentPage) && searchQuery == old(searchQuery)
    {
      filters := Filters.ClearAll(filters);
    }

    /** A chip's close button, with the experience and salary chips resetting
        their bound (see `Filters.CloseChip`). */
    method CloseChip(c: Filters.Chip)
      requires Valid()
      modifies this`filters
      ensures Valid() && filters == Filters.CloseChip(old(filters), c)
      ensures currentPage == old(currentPage) && searchQuery == old(searchQuery)
    {
      filters := Filters.CloseChip(filters, c);
    }

    /** Previous, on the pager that is shown only while the page has resumes. */
    method PreviousPage()
      requires Valid() && Shown() != []
      modifies this`currentPage
      ensures Valid() && filters == old(filters) && searchQuery == old(searchQuery)
      ensures currentPage == Listing.PreviousPage(old(currentPage))
      ensures 1 <= currentPage <= TotalPages()
    {
      Listing.PageNonEmptyIff(Arranged(resumes, filters, searchQuery), currentPage, filters.perPage);
      Listing.PagerClamps(currentPage, TotalPages());
      currentPage := if currentPage - 1 >= 1 then currentPage - 1 else 1;
    }

    /** Next, on the same pager. */
    method NextPage()
      requires Valid() && Shown() != []
      modifies this`currentPage
      ensures Valid() && filters == old(filters) && searchQuery == old(searchQuery)
      ensures currentPage == Listing.NextPage(old(currentPage), TotalPages())
      ensures 1 <= currentPage <= TotalPages()
    {
      Listing.PageNonEmptyIff(Arranged(resumes, filters, searchQuery), currentPage, filters.perPage);
      Listing.PagerClamps(currentPage, TotalPages());
      var total := TotalPages();
      currentPage := if currentPage + 1 <= total then currentPage + 1 else total;
    }

    /** A numbered page button: pages 1 to `totalPages` are offered. */
    method GoToPage(page: int)
      requires Valid() && Shown() != [] && 1 <= page <= TotalPages()
      modifies this`currentPage
      ensures Valid() && filters == old(filters) && searchQuery == old(searchQuery)
      ensures currentPage == page && Shown() != []
    {
      currentPage := page;
      Listing.PageNonEmptyIff(Arranged(resumes, filters, searchQuery), currentPage, filters.perPage);
    }
  }

  /** Every resume on a page is an input resume that passes the filters. */
  lemma ShownAreMatches(page: ResumesPage)
    requires page.filters.perPage > 0
    ensures forall x :: x in page.Shown() ==> x in page.resumes && Matches(x, page.filters, page.searchQuery)
  {
    var a := Arranged(page.resumes, page.filters, page.searchQuery);
    Listing.PageItemsMembers(a, page.currentPage, page.filters.perPage);
    ArrangedMembers(page.resumes, page.filters, page.searchQuery);
  }
}
