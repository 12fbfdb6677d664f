/**
 * The vacancy search screen (src/pages/Jobs/Jobs.tsx): the page state the
 * filter handlers update, page slicing over the loaded vacancies, the age
 * label of a vacancy, and the query-string pruning of `filterVacancies`.
 * The vacancies come from the server; here they are a field set by the
 * constructor and by `Load`.
 */
module Jobs {
  import Text
  import Listing
  import Filters

  /** The parts of a vacancy the screen's logic looks at; `createdAt` is
      `date_of_create` in milliseconds. */
  datatype Vacancy = Vacancy(id: int, title: string, salary: int, createdAt: int)

  /** The multi-select keys of this screen's `FilterState`. */
  const ListKeys: set<string> := {"employmentType", "schedule", "sideWork"}

  const MsPerDay := 1000 * 60 * 60 * 24

  /** `Math.floor((now - date) / (1000 * 60 * 60 * 24))`: whole days, rounded
      down also for a date in the future. */
  function DaysBetween(now: int, createdAt: int): (days: int)
    ensures days * MsPerDay <= now - createdAt < days * MsPerDay + MsPerDay
  {
    (now - createdAt) / MsPerDay
  }

  /** The label `formatDate` writes. */
  datatype Age =
    | Today
    | Yesterday
    | DaysAgo(days: int)
    | WeeksAgo(weeks: int)
    | MonthsAgo(months: int)
    | YearsAgo(years: int)

  /** `formatDate` from the day count: the first matching bucket, with weeks
      of 7 days, months of 30 and years of 365, each rounded down. */
  function AgeOf(days: int): (r: Age)
    ensures r == Today <==> days == 0
    ensures r == Yesterday <==> days == 1
    ensures r.DaysAgo? <==> days < 7 && days != 0 && days != 1
    ensures r.DaysAgo? ==> r.days == days
    ensures r.WeeksAgo? <==> 7 <= days < 30
    ensures r.WeeksAgo? ==> 1 <= r.weeks <= 4 && 7 * r.weeks <= days < 7 * r.weeks + 7
    ensures r.MonthsAgo? <==> 30 <= days < 365
    ensures r.MonthsAgo? ==> 1 <= r.months <= 12 && 30 * r.months <= days < 30 * r.months + 30
    ensures r.YearsAgo? <==> days >= 365
    ensures r.YearsAgo? ==> r.years >= 1 && 365 * r.years <= days < 365 * r.years + 365
  {
    if days == 0 then Today
    else if days == 1 then Yesterday
    else if days < 7 then DaysAgo(days)
    else if days < 30 then WeeksAgo(days / 7)
    else if days < 365 then MonthsAgo(days / 30)
    else YearsAgo(days / 365)
  }

  /** The least day count a label can stand for. */
  function LeastDays(a: Age): int {
    match a
    case Today => 0
    case Yesterday => 1
    case DaysAgo(d) => d
    case WeeksAgo(w) => 7 * w
    case MonthsAgo(m) => 30 * m
    case YearsAgo(y) => 365 * y
  }

  /** A label never claims more days than have passed, and an older vacancy
      never gets a label that stands for fewer days. */
  lemma AgeMonotone(d1: int, d2: int)
    requires 0 <= d1 <= d2
    ensures LeastDays(AgeOf(d1)) <= d1
    ensures LeastDays(AgeOf(d1)) <= LeastDays(AgeOf(d2))
  {
    var a1 := AgeOf(d1);
    var a2 := AgeOf(d2);
    if a1.WeeksAgo? && a2.WeeksAgo? {
      WholeMultiples(7, a1.weeks, a2.weeks, d1, d2);
    } else if a1.MonthsAgo? && a2.MonthsAgo? {
      WholeMultiples(30, a1.months, a2.months, d1, d2);
    } else if a1.YearsAgo? && a2.YearsAgo? {
      WholeMultiples(365, a1.years, a2.years, d1, d2);
    }
  }

  /** Rounding down to a multiple of `unit` keeps the order of the numbers rounded. */
  lemma WholeMultiples(unit: int, q1: int, q2: int, d1: int, d2: int)
    requires unit > 0 && d1 <= d2
    requires unit * q1 <= d1 < unit * q1 + unit
    requires unit * q2 <= d2 < unit * q2 + unit
    ensures q1 <= q2
  {
    assert unit * (q1 - q2 - 1) == unit * q1 - unit * (q2 + 1) < 0;
  }

  /** The text `formatDate` returns for a label. */
  function AgeText(a: Age): string {
    match a
    case Today => "Today"
    case Yesterday => "Yesterday"
    case DaysAgo(d) => Text.Show(d) + " days ago"
    case WeeksAgo(w) => Text.Show(w) + " weeks ago"
    case MonthsAgo(m) => Text.Show(m) + " months ago"
    case YearsAgo(y) => Text.Show(y) + " years ago"
  }

  /** `if (value)` on a parameter value: only the empty string is dropped. */
  predicate Present(param: (string, string)) {
    param.1 != ""
  }

  /** The `forEach` in `filterVacancies` that appends to `URLSearchParams`
      every entry whose value is non-empty. */
  method BuildQuery(params: seq<(string, string)>) returns (query: seq<(string, string)>)
    ensures query == Listing.Keep(params, Present)
  {
    query := [];
    var i := 0;
    while i < |params|
      invariant 0 <= i <= |params|
      invariant query == Listing.Keep(params[..i], Present)
    {
      assert params[..i + 1][..i] == params[..i];
      if params[i].1 != "" {
        query := query + [params[i]];
      }
      i := i + 1;
    }
    assert params[..|params|] == params;
  }

  /** The query keeps the non-empty entries in their input order: it is
      built part by part, and holds exactly the present entries. */
  lemma QueryParts(a: seq<(string, string)>, b: seq<(string, string)>)
    ensures Listing.Keep(a + b, Present) == Listing.Keep(a, Present) + Listing.Keep(b, Present)
    ensures forall p :: p in Listing.Keep(a, Present) <==> p in a && p.1 != ""
  {
    Listing.KeepAppend(a, b, Present);
    Listing.KeepMembers(a, Present);
  }

  class JobsPage {
    var vacancies: seq<Vacancy>
    var filters: Filters.FilterState
    var searchQuery: string
    var currentPage: int

    ghost predicate Valid()
      reads this
    {
      Filters.WellFormed(filters) && filters.lists.Keys == ListKeys &&
      filters.perPage > 0 && currentPage >= 1
    }

    constructor (vacancies: seq<Vacancy>)
      ensures Valid() && this.vacancies == vacancies
      ensures filters == Filters.Initial(ListKeys) && searchQuery == "" && currentPage == 1
    {
      this.vacancies := vacancies;
      filters := Filters.Initial(ListKeys);
      searchQuery := "";
      currentPage := 1;
    }

    /** `paginatedVacancies`. */
    function Shown(): seq<Vacancy>
      reads this
      requires filters.perPage > 0
    {
      Listing.PageItems(vacancies, currentPage, filters.perPage)
    }

    function TotalPages(): nat
      reads this
      requires filters.perPage > 0
    {
      Listing.TotalPages(|vacancies|, filters.perPage)
    }

    /** A new vacancy list from the server (`loadVacancies`, `handleSearch`). */
    method Load(vacancies: seq<Vacancy>)
      requires Valid()
      modifies this`vacancies
      ensures Valid() && this.vacancies == vacancies
      ensures filters == old(filters) && currentPage == old(currentPage) && searchQuery == old(searchQuery)
    {
      this.vacancies := vacancies;
    }

    method SetSearchQuery(q: string)
      requires Valid()
      modifies this`searchQuery
      ensures Valid() && searchQuery == q
      ensures vacancies == old(vacancies) && filters == old(filters) && currentPage == old(currentPage)
    {
      searchQuery := q;
    }

    /** `handleFilterChange(key, value)`. */
    method HandleFilterChange(key: string, value: Filters.Value)
      requires Valid() && Filters.Fits(filters, key, value)
      requires key == Filters.PerPageKey ==> value.n in Filters.PerPageOptions
      modifies this`filters, this`currentPage
      ensures Valid() && filters == Filters.Set(old(filters), key, value)
      ensures currentPage == 1 && vacancies == old(vacancies) && searchQuery == old(searchQuery)
    {
      filters := Filters.Set(filters, key, value);
      currentPage := 1;
    }

    /** `toggleFilter(key, value)` on a multi-select key. */
    method ToggleFilter(key: string, value: string)
      requires Valid() && key in filters.lists
      modifies this`filters, this`currentPage
      ensures Valid() && filters == Filters.Toggle(old(filters), key, value)
      ensures currentPage == 1 && vacancies == old(vacancies) && searchQuery == old(searchQuery)
    {
      filters := Filters.Toggle(filters, key, value);
      currentPage := 1;
    }

    /** `clearFilter(name)`; the page is not reset. */
    method ClearFilter(name: string)
      requires Valid() && name !in Filters.NumericKeys
      modifies this`filters
      ensures Valid() && filters == Filters.Clear(old(filters), name)
      ensures currentPage == old(currentPage) && vacancies == old(vacancies) && searchQuery == old(searchQuery)
    {
      filters := Filters.Clear(filters, name);
    }

    /** The "Clear All" button. */
    method ClearAll()
      requires Valid()
      modifies this`filters
      ensures Valid() && filters == Filters.ClearAll(old(filters))
      ensures currentPage == old(currentPage) && vacancies == old(vacancies) && searchQuery == old(searchQuery)
    {
      filters := Filters.ClearAll(filters);
    }

    /** A chip's close button, with the experience and salary chips resetting
        their bound (see `Filters.CloseChip`). */
    method CloseChip(c: Filters.Chip)
      requires Valid()
      modifies this`filters
      ensures Valid() && filters == Filters.CloseChip(old(filters), c)
      ensures currentPage == old(currentPage) && vacancies == old(vacancies) && searchQuery == old(searchQuery)
    {
      filters := Filters.CloseChip(filters, c);
    }

    /** Previous, on the pager that is shown only while the page has vacancies. */
    method PreviousPage()
      requires Valid() && Shown() != []
      modifies this`currentPage
      ensures Valid() && vacancies == old(vacancies) && filters == old(filters)
      ensures currentPage == Listing.PreviousPage(old(currentPage))
      ensures 1 <= currentPage <= TotalPages()
    {
      Listing.PageNonEmptyIff(vacancies, currentPage, filters.perPage);
      Listing.PagerClamps(currentPage, TotalPages());
      currentPage := if currentPage - 1 >= 1 then currentPage - 1 else 1;
    }

    /** Next, on the same pager. */
    method NextPage()
      requires Valid() && Shown() != []
      modifies this`currentPage
      ensures Valid() && vacancies == old(vacancies) && filters == old(filters)
      ensures currentPage == Listing.NextPage(old(currentPage), TotalPages())
      ensures 1 <= currentPage <= TotalPages()
    {
      Listing.PageNonEmptyIff(vacancies, currentPage, filters.perPage);
      Listing.PagerClamps(currentPage, TotalPages());
      var total := TotalPages();
      currentPage := if currentPage + 1 <= total then currentPage + 1 else total;
    }

    /** A numbered page button. */
    method GoToPage(page: int)
      requires Valid() && Shown() != [] && 1 <= page <= TotalPages()
      modifies this`currentPage
      ensures Valid() && vacancies == old(vacancies) && filters == old(filters)
      ensures currentPage == page && Shown() != []
    {
      currentPage := page;
      Listing.PageNonEmptyIff(vacancies, currentPage, filters.perPage);
    }
  }

  /** The pages of the vacancy list, one after another, are the whole list. */
  lemma PagesCoverVacancies(page: JobsPage)
    requires page.filters.perPage > 0
    ensures Listing.Pages(page.vacancies, page.filters.perPage, page.TotalPages()) == page.vacancies
  {
    Listing.AllPages(page.vacancies, page.filters.perPage);
  }
}
