/**
 * List handling shared by the resume and vacancy screens: toggling a value
 * in a multi-select filter, `Array.prototype.slice`, page counts, the
 * Previous/Next clamps and a stable sort by a numeric key (the behaviour of
 * `Array.prototype.sort` with a comparator `(a, b) => key(a) - key(b)`).
 */
module Listing {

  /** The test of `list.filter(item => item !== v)`. */
  function Other<T(==)>(v: T): T -> bool {
    x => x != v
  }

  /** `list.filter(item => item !== v)`: the other elements, every copy and
      in their order. */
  function Without<T(==,!new)>(list: seq<T>, v: T): (r: seq<T>)
    ensures r == Keep(list, Other(v))
    ensures forall x :: x in r <==> x in list && x != v
  {
    if list == [] then []
    else
      var rest := Without(list[1..], v);
      var r := if list[0] == v then rest else [list[0]] + rest;
      WithoutStep(list, v, rest, r);
      r
  }

  /** One step of `Without`: the first element is dropped or kept in front. */
  lemma WithoutStep<T(!new)>(list: seq<T>, v: T, rest: seq<T>, r: seq<T>)
    requires list != [] && rest == Keep(list[1..], Other(v))
    requires r == if list[0] == v then rest else [list[0]] + rest
    ensures r == Keep(list, Other(v))
    ensures forall x :: x in r <==> x in list && x != v
  {
    var head := [list[0]];
    assert list == head + list[1..];
    assert Keep(head, Other(v)) == if list[0] == v then [] else head by {
      assert head[..0] == [];
    }
    KeepAppend(head, list[1..], Other(v));
    KeepMembers(list, Other(v));
  }

  /** Removing a value drops all its copies and keeps every copy of the
      other elements. */
  lemma {:induction false} WithoutCounts<T(!new)>(list: seq<T>, v: T)
    ensures multiset(Without(list, v)) == multiset(list)[v := 0]
  {
    if list != [] {
      var init := list[..|list| - 1];
      var last := list[|list| - 1];
      WithoutCounts(init, v);
      assert list == init + [last];
      assert Without(list, v) == Without(init, v) + (if last != v then [last] else []);
    }
  }

  /** A multi-select toggle: remove every occurrence of a present value,
      append an absent one. */
  function Toggle<T(==,!new)>(list: seq<T>, v: T): seq<T> {
    if v in list then Without(list, v) else list + [v]
  }

  /** Toggling flips the membership of the toggled value and no other. */
  lemma ToggleMembership<T(!new)>(list: seq<T>, v: T)
    ensures v in Toggle(list, v) <==> v !in list
    ensures forall x :: x != v ==> (x in Toggle(list, v) <==> x in list)
  {
  }

  /** Toggling the same value twice gives back the same members. */
  lemma ToggleTwice<T(!new)>(list: seq<T>, v: T)
    ensures forall x :: x in Toggle(Toggle(list, v), v) <==> x in list
  {
    ToggleMembership(list, v);
    ToggleMembership(Toggle(list, v), v);
  }

  /** `s.filter(p)`: the elements that satisfy `p`, in their order in `s`. */
  function Keep<T>(s: seq<T>, p: T -> bool): (r: seq<T>)
    ensures |r| <= |s|
    ensures forall i :: 0 <= i < |r| ==> p(r[i])
  {
    if s == [] then []
    else Keep(s[..|s| - 1], p) + (if p(s[|s| - 1]) then [s[|s| - 1]] else [])
  }

  /** Filtering a concatenation filters each part: the kept elements stay in
      their original order. */
  lemma {:induction false} KeepAppend<T>(a: seq<T>, b: seq<T>, p: T -> bool)
    ensures Keep(a + b, p) == Keep(a, p) + Keep(b, p)
  {
    if b != [] {
      var b' := b[..|b| - 1];
      assert (a + b)[..|a + b| - 1] == a + b';
      KeepAppend(a, b', p);
    } else {
      assert a + b == a;
    }
  }

  /** An element is kept exactly when it occurs in `s` and satisfies `p`;
      the kept elements are a sub-multiset of `s`. */
  lemma {:induction false} KeepMembers<T>(s: seq<T>, p: T -> bool)
    ensures forall x :: x in Keep(s, p) <==> x in s && p(x)
    ensures multiset(Keep(s, p)) <= multiset(s)
  {
    if s != [] {
      var init := s[..|s| - 1];
      KeepMembers(init, p);
      assert s == init + [s[|s| - 1]];
    }
  }

  /** How `slice` turns an argument into a position in a list of length `len`. */
  function SliceIndex(i: int, len: nat): (k: nat)
    ensures k <= len
  {
    if i < 0 then (if len + i < 0 then 0 else len + i)
    else if i > len then len
    else i
  }

  /** `s.slice(start, end)`. */
  function Slice<T>(s: seq<T>, start: int, end: int): seq<T> {
    var a := SliceIndex(start, |s|);
    var b := SliceIndex(end, |s|);
    if a < b then s[a..b] else []
  }

  function Min(a: int, b: int): int { if a <= b then a else b }
  function Max(a: int, b: int): int { if a >= b then a else b }

  /** The items shown on page `page` (counted from 1):
      `s.slice((page - 1) * perPage, page * perPage)`. */
  function PageItems<T>(s: seq<T>, page: int, perPage: int): (r: seq<T>)
    requires perPage > 0
    ensures |r| <= perPage
    ensures page >= 1 ==> (r != [] <==> (page - 1) * perPage < |s|)
    ensures page >= 1 && (page - 1) * perPage < |s| ==>
      r == s[(page - 1) * perPage..Min(page * perPage, |s|)]
  {
    var lo, hi := (page - 1) * perPage, page * perPage;
    ProductOrder(page, perPage);
    SliceWindow(s, lo, hi, perPage);
    Slice(s, lo, hi)
  }

  /** A slice between two bounds `n` apart holds at most `n` items; from a
      start inside the list it is the items from there up to the end bound. */
  lemma SliceWindow<T>(s: seq<T>, lo: int, hi: int, n: int)
    requires n > 0 && hi - lo == n
    ensures |Slice(s, lo, hi)| <= n
    ensures lo >= 0 ==> (Slice(s, lo, hi) != [] <==> lo < |s|)
    ensures 0 <= lo < |s| ==> Slice(s, lo, hi) == s[lo..Min(hi, |s|)]
  {
  }

  /** A page holds only items of the list. */
  lemma PageItemsMembers<T>(s: seq<T>, page: int, perPage: int)
    requires perPage > 0
    ensures forall x :: x in PageItems(s, page, perPage) ==> x in s
  {
    var a := SliceIndex((page - 1) * perPage, |s|);
    var b := SliceIndex(page * perPage, |s|);
    if a < b {
      forall x | x in s[a..b] ensures x in s {
        var i :| 0 <= i < b - a && s[a..b][i] == x;
        assert s[a + i] == x;
      }
    }
  }

  lemma ProductOrder(page: int, perPage: int)
    requires perPage > 0
    ensures page * perPage - (page - 1) * perPage == perPage
    ensures page >= 1 ==> (page - 1) * perPage >= 0
  {
  }

  /** `Math.ceil(n / perPage)`. */
  function TotalPages(n: nat, perPage: int): nat
    requires perPage > 0
  {
    (n + perPage - 1) / perPage
  }

  /** There are more than `k` pages exactly when the first `k` pages do not
      hold every item. */
  lemma MorePagesIff(n: nat, perPage: int, k: nat)
    requires perPage > 0
    ensures k < TotalPages(n, perPage) <==> k * perPage < n
  {
    var q := TotalPages(n, perPage);
    var r := (n + perPage - 1) % perPage;
    assert n + perPage - 1 == q * perPage + r;
    if k < q {
      MulMonotone(k + 1, q, perPage);
      assert (k + 1) * perPage == k * perPage + perPage;
    } else {
      MulMonotone(q, k, perPage);
    }
  }

  /** The page count is the least number of pages of `perPage` items that
      hold all `n` items. */
  lemma TotalPagesLeast(n: nat, perPage: int)
    requires perPage > 0
    ensures n <= TotalPages(n, perPage) * perPage
    ensures TotalPages(n, perPage) > 0 ==> (TotalPages(n, perPage) - 1) * perPage < n
  {
    var q := TotalPages(n, perPage);
    MorePagesIff(n, perPage, q);
    if q > 0 {
      MorePagesIff(n, perPage, q - 1);
    }
  }

  /** A page from 1 on shows items exactly when its number is at most the page count. */
  lemma PageNonEmptyIff<T>(s: seq<T>, page: int, perPage: int)
    requires perPage > 0 && page >= 1
    ensures PageItems(s, page, perPage) != [] <==> page <= TotalPages(|s|, perPage)
  {
    MorePagesIff(|s|, perPage, page - 1);
  }

  lemma MulMonotone(a: int, b: int, c: int)
    requires a <= b && c > 0
    ensures a * c <= b * c
  {
  }

  /** Pages 1 to k, one after the other. */
  function Pages<T>(s: seq<T>, perPage: int, k: nat): seq<T>
    requires perPage > 0
  {
    if k == 0 then [] else Pages(s, perPage, k - 1) + PageItems(s, k, perPage)
  }

  lemma {:induction false} PagesPrefix<T>(s: seq<T>, perPage: int, k: nat)
    requires perPage > 0
    ensures Pages(s, perPage, k) == s[..Min(k * perPage, |s|)]
  {
    if k > 0 {
      PagesPrefix(s, perPage, k - 1);
      var lo := (k - 1) * perPage;
      var hi := k * perPage;
      assert hi == lo + perPage;
      var a := Min(lo, |s|);
      var b := Min(hi, |s|);
      var page := PageItems(s, k, perPage);
      assert lo < |s| ==> page == s[a..b];
      assert lo >= |s| ==> page == [] && a == b;
      PrefixExtend(s, a, b);
    }
  }

  lemma PrefixExtend<T>(s: seq<T>, a: int, b: int)
    requires 0 <= a <= b <= |s|
    ensures s[..a] + s[a..b] == s[..b]
  {
  }

  /** Concatenating every page gives back the whole list, in order. */
  lemma AllPages<T>(s: seq<T>, perPage: int)
    requires perPage > 0
    ensures Pages(s, perPage, TotalPages(|s|, perPage)) == s
  {
    PagesPrefix(s, perPage, TotalPages(|s|, perPage));
    TotalPagesLeast(|s|, perPage);
    assert s[..|s|] == s;
  }

  /** The Previous button: `Math.max(page - 1, 1)`. */
  function PreviousPage(page: int): int {
    Max(page - 1, 1)
  }

  /** The Next button: `Math.min(page + 1, totalPages)`. */
  function NextPage(page: int, totalPages: int): int {
    Min(page + 1, totalPages)
  }

  /** Both buttons keep a page that is in range in range; Next moves forward by
      one unless on the last page, Previous moves back by one unless on the first. */
  lemma PagerClamps(page: int, totalPages: int)
    requires 1 <= page <= totalPages
    ensures 1 <= PreviousPage(page) <= totalPages
    ensures 1 <= NextPage(page, totalPages) <= totalPages
    ensures NextPage(page, totalPages) == if page < totalPages then page + 1 else page
    ensures PreviousPage(page) == if page > 1 then page - 1 else page
  {
  }

  /** `r` is ordered by `rank`, smallest first. */
  ghost predicate SortedBy<T>(r: seq<T>, rank: T -> real) {
    forall i, j :: 0 <= i < j < |r| ==> rank(r[i]) <= rank(r[j])
  }

  /** Put `x` after every element whose rank is not larger (`x` came later). */
  function Insert<T>(sorted: seq<T>, x: T, rank: T -> real): (r: seq<T>)
    ensures multiset(r) == multiset(sorted) + multiset{x}
  {
    if sorted == [] then [x]
    else if rank(sorted[|sorted| - 1]) <= rank(x) then sorted + [x]
    else
      var init := sorted[..|sorted| - 1];
      assert sorted == init + [sorted[|sorted| - 1]];
      Insert(init, x, rank) + [sorted[|sorted| - 1]]
  }

  /** Stable insertion sort by `rank`: `s.sort((a, b) => rank(a) - rank(b))`. */
  function SortBy<T>(s: seq<T>, rank: T -> real): seq<T> {
    if s == [] then []
    else Insert(SortBy(s[..|s| - 1], rank), s[|s| - 1], rank)
  }

  /** Every element of `s` ranks at most `bound`. */
  ghost predicate RanksAtMost<T>(s: seq<T>, rank: T -> real, bound: real) {
    forall i :: 0 <= i < |s| ==> rank(s[i]) <= bound
  }

  lemma RanksAtMostByMultiset<T>(s: seq<T>, t: seq<T>, rank: T -> real, bound: real)
    requires multiset(s) <= multiset(t) && RanksAtMost(t, rank, bound)
    ensures RanksAtMost(s, rank, bound)
  {
    forall i | 0 <= i < |s| ensures rank(s[i]) <= bound {
      assert s[i] in multiset(s);
      assert s[i] in multiset(t);
      var j :| 0 <= j < |t| && t[j] == s[i];
    }
  }

  lemma {:induction false} InsertSorted<T>(sorted: seq<T>, x: T, rank: T -> real)
    requires SortedBy(sorted, rank)
    ensures SortedBy(Insert(sorted, x, rank), rank)
  {
    if sorted != [] && rank(sorted[|sorted| - 1]) > rank(x) {
      var init := sorted[..|sorted| - 1];
      var last := sorted[|sorted| - 1];
      assert SortedBy(init, rank);
      InsertSorted(init, x, rank);
      var r := Insert(init, x, rank);
      assert RanksAtMost(init + [x], rank, rank(last));
      assert multiset(init + [x]) == multiset(init) + multiset{x};
      RanksAtMostByMultiset(r, init + [x], rank, rank(last));
      var t := r + [last];
      forall i, j | 0 <= i < j < |t| ensures rank(t[i]) <= rank(t[j]) {
        if j < |r| {
          assert t[i] == r[i] && t[j] == r[j];
        } else {
          assert t[i] == r[i];
        }
      }
    } else if sorted != [] {
      var t := sorted + [x];
      forall i, j | 0 <= i < j < |t| ensures rank(t[i]) <= rank(t[j]) {
        if j < |sorted| {
          assert t[i] == sorted[i] && t[j] == sorted[j];
        } else {
          assert t[i] == sorted[i];
          assert rank(sorted[i]) <= rank(sorted[|sorted| - 1]) || i == |sorted| - 1;
        }
      }
    }
  }

  /** Filtering a list ordered by `rank` keeps it ordered. */
  lemma {:induction false} KeepSorted<T>(s: seq<T>, p: T -> bool, rank: T -> real)
    requires SortedBy(s, rank)
    ensures SortedBy(Keep(s, p), rank)
  {
    if s != [] {
      var init := s[..|s| - 1];
      var last := s[|s| - 1];
      assert SortedBy(init, rank);
      KeepSorted(init, p, rank);
      if p(last) {
        var k := Keep(init, p);
        KeepMembers(init, p);
        assert RanksAtMost(init, rank, rank(last));
        RanksAtMostByMultiset(k, init, rank, rank(last));
        var t := k + [last];
        forall i, j | 0 <= i < j < |t| ensures rank(t[i]) <= rank(t[j]) {
          if j < |k| {
            assert t[i] == k[i] && t[j] == k[j];
          } else {
            assert t[i] == k[i];
          }
        }
      }
    }
  }

  /** The sort orders the list by rank and only rearranges it. */
  lemma {:induction false} SortByCorrect<T>(s: seq<T>, rank: T -> real)
    ensures SortedBy(SortBy(s, rank), rank)
    ensures multiset(SortBy(s, rank)) == multiset(s)
  {
    if s != [] {
      var init := s[..|s| - 1];
      SortByCorrect(init, rank);
      InsertSorted(SortBy(init, rank), s[|s| - 1], rank);
      assert s == init + [s[|s| - 1]];
    }
  }

  /** The test `rank(x) == k`. */
  function RankIs<T>(rank: T -> real, k: real): T -> bool {
    x => rank(x) == k
  }

  /** Filtering a list with one more element at the end. */
  lemma KeepSnoc<T>(s: seq<T>, x: T, p: T -> bool)
    ensures Keep(s + [x], p) == Keep(s, p) + (if p(x) then [x] else [])
  {
    assert (s + [x])[..|s + [x]| - 1] == s;
  }

  /** Insertion puts `x` after every element of its rank. */
  lemma {:induction false} InsertStable<T>(sorted: seq<T>, x: T, rank: T -> real, k: real)
    ensures Keep(Insert(sorted, x, rank), RankIs(rank, k)) ==
            Keep(sorted, RankIs(rank, k)) + (if rank(x) == k then [x] else [])
  {
    var p := RankIs(rank, k);
    if sorted == [] {
      KeepSnoc([], x, p);
      assert [] + [x] == [x];
    } else if rank(sorted[|sorted| - 1]) <= rank(x) {
      KeepSnoc(sorted, x, p);
    } else {
      var init := sorted[..|sorted| - 1];
      var last := sorted[|sorted| - 1];
      assert sorted == init + [last];
      InsertStable(init, x, rank, k);
      KeepPastLarger(Insert(init, x, rank), init, x, last, p);
    }
  }

  /** An element of a larger rank moved past `x` changes nothing in the
      elements kept, when `x` and it do not both pass. */
  lemma KeepPastLarger<T>(r: seq<T>, init: seq<T>, x: T, last: T, p: T -> bool)
    requires !(p(x) && p(last))
    requires Keep(r, p) == Keep(init, p) + (if p(x) then [x] else [])
    ensures Keep(r + [last], p) == Keep(init + [last], p) + (if p(x) then [x] else [])
  {
    KeepSnoc(r, last, p);
    KeepSnoc(init, last, p);
    var ki := Keep(init, p);
    if p(x) {
      assert ki + [x] + [] == ki + [] + [x];
    } else {
      assert ki + [] + (if p(last) then [last] else []) == ki + (if p(last) then [last] else []) + [];
    }
  }

  /** The sort is stable: the elements of any one rank keep their input
      order, as ES2019 requires of `Array.prototype.sort`. */
  lemma {:induction false} SortByStable<T>(s: seq<T>, rank: T -> real, k: real)
    ensures Keep(SortBy(s, rank), RankIs(rank, k)) == Keep(s, RankIs(rank, k))
  {
    if s != [] {
      var init := s[..|s| - 1];
      SortByStable(init, rank, k);
      InsertStable(SortBy(init, rank), s[|s| - 1], rank, k);
    }
  }

  /** With a comparator that always answers 0 the list keeps its order. */
  lemma {:induction false} SortByConstant<T>(s: seq<T>, rank: T -> real)
    requires forall x :: rank(x) == 0.0
    ensures SortBy(s, rank) == s
  {
    if s != [] {
      SortByConstant(s[..|s| - 1], rank);
      assert s == s[..|s| - 1] + [s[|s| - 1]];
    }
  }
}
