/**
 * The filter panel shared by the resume search (src/pages/Resumes/Resumes.tsx)
 * and the vacancy search (src/pages/Jobs/Jobs.tsx). Both screens keep a
 * `FilterState` object with the same scalar keys and a page-specific set of
 * multi-select keys, update it with the same three handlers
 * (`handleFilterChange`, `toggleFilter`, `clearFilter`), offer a "Clear All"
 * button and show the same active-filter chips.
 *
 * The handlers index the object by a key name (`{ ...prev, [key]: value }`),
 * so the state is modelled with a `Get` by name, and each handler is stated
 * by what it does to `Get` of every key.
 */
module Filters {
  import opened Optional
  import Listing

  const CityKey := "city"
  const MetroKey := "metro"
  const ExperienceKey := "experienceRange"
  const SalaryKey := "salaryRange"
  const SortByKey := "sortBy"
  const TimeFrameKey := "timeFrame"
  const PerPageKey := "perPage"

  /** The keys both screens have; the multi-select keys are all the others. */
  const ScalarKeys: set<string> := {CityKey, MetroKey, ExperienceKey, SalaryKey, SortByKey, TimeFrameKey, PerPageKey}
  /** The scalar keys that hold text. */
  const TextKeys: set<string> := {CityKey, MetroKey, SortByKey, TimeFrameKey}

  /** The slider ends and the defaults both screens start from and "Clear All" restores. */
  const MaxExperience := 10.0
  const MinSalary := 50000
  const MaxSalary := 300000
  const PerPageOptions: seq<int> := [10, 20, 50]

  /** `FilterState`. Experience is in years and moves in steps of 0.5, so it
      is a `real`; the salary slider yields integers. `lists` holds the
      multi-select keys of the screen (availability, skills, ... or
      employmentType, schedule, sideWork). */
  datatype FilterState = FilterState(
    city: string,
    metro: string,
    experienceRange: (real, real),
    salaryRange: (int, int),
    lists: map<string, seq<string>>,
    sortBy: string,
    timeFrame: string,
    perPage: int)

  /** No multi-select key shadows a scalar one. */
  predicate WellFormed(f: FilterState) {
    f.lists.Keys !! ScalarKeys
  }

  /** The initial state of a screen whose multi-select keys are `listKeys`. */
  function Initial(listKeys: set<string>): (f: FilterState)
    requires listKeys !! ScalarKeys
    ensures WellFormed(f) && f.lists.Keys == listKeys
    ensures forall k :: k in f.lists ==> f.lists[k] == []
  {
    FilterState("", "", (0.0, MaxExperience), (MinSalary, MaxSalary),
      map k | k in listKeys :: [], "relevance", "all", 20)
  }

  /** A value stored under a key. */
  datatype Value =
    | Text(text: string)
    | RealPair(lo: real, hi: real)
    | IntPair(low: int, high: int)
    | Number(n: int)
    | Strings(items: seq<string>)

  /** `filters[key]`, None for a name that is not a key. */
  function Get(f: FilterState, key: string): Option<Value> {
    if key == CityKey then Some(Text(f.city))
    else if key == MetroKey then Some(Text(f.metro))
    else if key == ExperienceKey then Some(RealPair(f.experienceRange.0, f.experienceRange.1))
    else if key == SalaryKey then Some(IntPair(f.salaryRange.0, f.salaryRange.1))
    else if key == SortByKey then Some(Text(f.sortBy))
    else if key == TimeFrameKey then Some(Text(f.timeFrame))
    else if key == PerPageKey then Some(Number(f.perPage))
    else if key in f.lists then Some(Strings(f.lists[key]))
    else None
  }

  /** Two values of the same declared type. */
  predicate SameShape(a: Value, b: Value) {
    a.Text? == b.Text? && a.RealPair? == b.RealPair? && a.IntPair? == b.IntPair? &&
    a.Number? == b.Number? && a.Strings? == b.Strings?
  }

  /** `value` is a legal value for `key`: the key exists and the value has its type. */
  predicate Fits(f: FilterState, key: string, value: Value) {
    Get(f, key).Some? && SameShape(Get(f, key).value, value)
  }

  /** A state is determined by what `Get` returns for every name. */
  lemma {:induction false} GetDetermines(f: FilterState, g: FilterState)
    requires WellFormed(f) && WellFormed(g)
    requires forall k :: Get(f, k) == Get(g, k)
    ensures f == g
  {
    assert Get(f, CityKey) == Get(g, CityKey) && Get(f, MetroKey) == Get(g, MetroKey);
    assert Get(f, ExperienceKey) == Get(g, ExperienceKey) && Get(f, SalaryKey) == Get(g, SalaryKey);
    assert Get(f, SortByKey) == Get(g, SortByKey) && Get(f, TimeFrameKey) == Get(g, TimeFrameKey);
    assert Get(f, PerPageKey) == Get(g, PerPageKey);
    forall k | k in f.lists
      ensures k in g.lists && f.lists[k] == g.lists[k]
    {
      assert Get(f, k) == Get(g, k);
    }
    forall k | k in g.lists
      ensures k in f.lists
    {
      assert Get(f, k) == Get(g, k);
    }
  }

  /** `{ ...prev, [key]: value }` for a key of the state. */
  function Set(f: FilterState, key: string, value: Value): (r: FilterState)
    requires WellFormed(f) && Fits(f, key, value)
    ensures WellFormed(r) && r.lists.Keys == f.lists.Keys
    ensures Get(r, key) == Some(value)
    ensures forall k :: k != key ==> Get(r, k) == Get(f, k)
  {
    if key == CityKey then f.(city := value.text)
    else if key == MetroKey then f.(metro := value.text)
    else if key == ExperienceKey then f.(experienceRange := (value.lo, value.hi))
    else if key == SalaryKey then f.(salaryRange := (value.low, value.high))
    else if key == SortByKey then f.(sortBy := value.text)
    else if key == TimeFrameKey then f.(timeFrame := value.text)
    else if key == PerPageKey then f.(perPage := value.n)
    else f.(lists := f.lists[key := value.items])
  }

  /** Storing the value a key already holds changes nothing, and of two
      changes to one key the later wins. */
  lemma SetLaws(f: FilterState, key: string, v: Value, w: Value)
    requires WellFormed(f) && Fits(f, key, v) && SameShape(v, w)
    ensures Set(f, key, Get(f, key).value) == f
    ensures Set(Set(f, key, v), key, w) == Set(f, key, w)
  {
    GetDetermines(Set(f, key, Get(f, key).value), f);
    GetDetermines(Set(Set(f, key, v), key, w), Set(f, key, w));
  }

  /** `toggleFilter(key, value)` on the filters: the multi-select list loses
      every copy of a present value or gains an absent one at its end. */
  function Toggle(f: FilterState, key: string, value: string): (r: FilterState)
    requires WellFormed(f) && key in f.lists
    ensures WellFormed(r) && r.lists.Keys == f.lists.Keys
    ensures forall k :: k != key ==> Get(r, k) == Get(f, k)
    ensures r.lists[key] == Listing.Toggle(f.lists[key], value)
  {
    var r := Set(f, key, Strings(Listing.Toggle(f.lists[key], value)));
    assert Get(r, key) == Some(Strings(Listing.Toggle(f.lists[key], value)));
    r
  }

  /** Toggling one value twice gives every multi-select list its old members back. */
  lemma ToggleTwice(f: FilterState, key: string, value: string)
    requires WellFormed(f) && key in f.lists
    ensures var g := Toggle(Toggle(f, key, value), key, value);
      g.lists.Keys == f.lists.Keys &&
      forall k, x :: k in f.lists ==> (x in g.lists[k] <==> x in f.lists[k])
  {
    var g := Toggle(Toggle(f, key, value), key, value);
    Listing.ToggleTwice(f.lists[key], value);
    forall k | k in f.lists && k != key
      ensures g.lists[k] == f.lists[k]
    {
      assert Get(g, k) == Get(f, k);
    }
  }

  /** The keys `clearFilter` is never called with: on the two range keys
      (arrays) it would store `[]`, on the page size `''`, and neither fits
      the key's type. */
  const NumericKeys: set<string> := {ExperienceKey, SalaryKey, PerPageKey}

  /** `clearFilter(name)`: a multi-select key becomes `[]`, a text key `''`.
      A name that is not a key only adds a property nobody reads, so no key
      changes. */
  function Clear(f: FilterState, name: string): (r: FilterState)
    requires WellFormed(f) && name !in NumericKeys
    ensures WellFormed(r) && r.lists.Keys == f.lists.Keys
    ensures forall k :: k != name ==> Get(r, k) == Get(f, k)
    ensures name in f.lists ==> Get(r, name) == Some(Strings([]))
    ensures name in TextKeys ==> Get(r, name) == Some(Text(""))
    ensures Get(f, name).None? ==> r == f
  {
    if name in f.lists then Set(f, name, Strings([]))
    else if name in TextKeys then Set(f, name, Text(""))
    else f
  }

  /** The "Clear All" button: the seven filter fields go back to their
      defaults; sorting, time frame and page size stay. */
  function ClearAll(f: FilterState): (r: FilterState)
    requires WellFormed(f)
    ensures WellFormed(r) && r.lists.Keys == f.lists.Keys
    ensures r.city == "" && r.metro == ""
    ensures r.experienceRange == (0.0, MaxExperience) && r.salaryRange == (MinSalary, MaxSalary)
    ensures forall k :: k in r.lists ==> r.lists[k] == []
    ensures r.sortBy == f.sortBy && r.timeFrame == f.timeFrame && r.perPage == f.perPage
  {
    f.(city := "", metro := "", experienceRange := (0.0, MaxExperience),
       salaryRange := (MinSalary, MaxSalary), lists := map k | k in f.lists :: [])
  }

  /** "Clear All" brings every filter key back to where the screen started,
      keeping only the sort, time frame and page size. */
  lemma ClearAllRestoresInitial(f: FilterState)
    requires WellFormed(f)
    ensures ClearAll(f) == Initial(f.lists.Keys).(sortBy := f.sortBy, timeFrame := f.timeFrame, perPage := f.perPage)
  {
  }

  /** An active-filter chip, by its `type`. */
  datatype Chip = CityChip | MetroChip | ExperienceChip | SalaryChip

  /** The `type` string the chip carries into `clearFilter`. */
  function ChipName(c: Chip): string {
    match c
    case CityChip => "city"
    case MetroChip => "metro"
    case ExperienceChip => "experience"
    case SalaryChip => "salary"
  }

  /** The position of a chip in `getActiveFilters`' pushes. */
  function ChipOrder(c: Chip): int {
    match c
    case CityChip => 0
    case MetroChip => 1
    case ExperienceChip => 2
    case SalaryChip => 3
  }

  /** `getActiveFilters`: a chip for a typed city or metro, and for an upper
      experience or salary bound below the slider's maximum. */
  function ActiveChips(f: FilterState): (r: seq<Chip>)
    ensures CityChip in r <==> f.city != ""
    ensures MetroChip in r <==> f.metro != ""
    ensures ExperienceChip in r <==> f.experienceRange.1 < MaxExperience
    ensures SalaryChip in r <==> f.salaryRange.1 < MaxSalary
    ensures forall i, j :: 0 <= i < j < |r| ==> ChipOrder(r[i]) < ChipOrder(r[j])
  {
    (if f.city != "" then [CityChip] else []) +
    (if f.metro != "" then [MetroChip] else []) +
    (if f.experienceRange.1 < MaxExperience then [ExperienceChip] else []) +
    (if f.salaryRange.1 < MaxSalary then [SalaryChip] else [])
  }

  /** The chip's close button as written: `clearFilter(chip.type)`. For the
      experience and salary chips that name is not a key, so nothing changes
      and the chip stays on screen. */
  lemma ChipCloseAsWritten(f: FilterState, c: Chip)
    requires WellFormed(f) && "experience" !in f.lists && "salary" !in f.lists
    ensures c == ExperienceChip || c == SalaryChip ==> Clear(f, ChipName(c)) == f
    ensures c == CityChip || c == MetroChip ==> c !in ActiveChips(Clear(f, ChipName(c)))
  {
    if c == CityChip {
      assert Get(Clear(f, ChipName(c)), CityKey) == Some(Text(""));
    } else if c == MetroChip {
      assert Get(Clear(f, ChipName(c)), MetroKey) == Some(Text(""));
    }
  }

  /** A concrete case: an experience bound of 5 years shows its chip, and
      closing the chip leaves the bound and the chip in place. */
  lemma ExperienceChipStays()
    ensures var f := Initial({}).(experienceRange := (0.0, 5.0));
      ExperienceChip in ActiveChips(f) && ExperienceChip in ActiveChips(Clear(f, ChipName(ExperienceChip)))
  {
    var f := Initial({}).(experienceRange := (0.0, 5.0));
    ChipCloseAsWritten(f, ExperienceChip);
  }

  /** The close button as intended: a text filter is emptied, and a range
      gets its default upper bound back, so the chip disappears. The lower
      bound is kept; no slider of the screens moves it. */
  function CloseChip(f: FilterState, c: Chip): (r: FilterState)
    requires WellFormed(f)
    ensures WellFormed(r) && r.lists == f.lists
    ensures c !in ActiveChips(r)
    ensures forall d :: d != c ==> (d in ActiveChips(r) <==> d in ActiveChips(f))
    ensures r.sortBy == f.sortBy && r.timeFrame == f.timeFrame && r.perPage == f.perPage
    ensures r.city == if c == CityChip then "" else f.city
    ensures r.metro == if c == MetroChip then "" else f.metro
    ensures r.experienceRange == if c == ExperienceChip then (f.experienceRange.0, MaxExperience) else f.experienceRange
    ensures r.salaryRange == if c == SalaryChip then (f.salaryRange.0, MaxSalary) else f.salaryRange
  {
    match c
    case CityChip => f.(city := "")
    case MetroChip => f.(metro := "")
    case ExperienceChip => f.(experienceRange := (f.experienceRange.0, MaxExperience))
    case SalaryChip => f.(salaryRange := (f.salaryRange.0, MaxSalary))
  }

  /** Closing every chip one by one leaves no chip, as "Clear All" does. */
  lemma CloseEveryChip(f: FilterState)
    requires WellFormed(f)
    ensures ActiveChips(CloseChip(CloseChip(CloseChip(CloseChip(f, CityChip), MetroChip), ExperienceChip), SalaryChip)) == []
    ensures ActiveChips(ClearAll(f)) == []
  {
  }
}
