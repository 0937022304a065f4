/** Pagination of the generated results (App.tsx): a fixed page size, a
    ceiling-division page count, the visible page as a slice, and the
    bounded next/previous moves. */
module Pagination {

  /** Number of workouts shown on one page. */
  const ItemsPerPage: nat := 5

  function Min(a: int, b: int): int { if a <= b then a else b }
  function Max(a: int, b: int): int { if a >= b then a else b }

  /** `Math.ceil(count / ItemsPerPage)`: the least page count whose pages
      hold `count` items. */
  function TotalPages(count: nat): (r: nat)
    ensures count <= r * ItemsPerPage < count + ItemsPerPage
    ensures r == 0 <==> count == 0
  {
    (count + ItemsPerPage - 1) / ItemsPerPage
  }

  /** Index into the workouts where a page starts. */
  function PageStart(page: int): int { (page - 1) * ItemsPerPage }

  /** How `Array.prototype.slice` turns one of its arguments into a
      position: a negative value counts back from the end, and the result is
      clamped to `0..len`. */
  function SliceIndex(i: int, len: nat): (k: nat)
    ensures k <= len
    ensures 0 <= i <= len ==> k == i
    ensures i < 0 && -i <= len ==> k == len + i
    ensures i > len ==> k == len
    ensures i + len < 0 ==> k == 0
  {
    if i < 0 then (if len + i < 0 then 0 else len + i)
    else if i > len then len
    else i
  }

  /** `s.slice(start, end)`. */
  function JsSlice<T>(s: seq<T>, start: int, end: int): seq<T>
  {
    var lo := SliceIndex(start, |s|);
    var hi := SliceIndex(end, |s|);
    if lo < hi then s[lo..hi] else []
  }

  /** `currentWorkouts`: the workouts visible on `page` (numbered from 1).
      A page in range is the contiguous run of `workouts` starting at
      `PageStart(page)`: never empty, at most `ItemsPerPage` long, full
      except possibly on the last page, and reaching the end of the list on
      the last page. A page past the last is empty. */
  function CurrentWorkouts<T>(workouts: seq<T>, page: int): (r: seq<T>)
    ensures 1 <= page <= TotalPages(|workouts|) ==>
      0 < |r| <= ItemsPerPage &&
      PageStart(page) + |r| <= |workouts| &&
      r == workouts[PageStart(page)..PageStart(page) + |r|] &&
      (page < TotalPages(|workouts|) ==> |r| == ItemsPerPage) &&
      (page == TotalPages(|workouts|) ==> PageStart(page) + |r| == |workouts|)
    ensures page > TotalPages(|workouts|) ==> r == []
  {
    JsSlice(workouts, (page - 1) * ItemsPerPage, page * ItemsPerPage)
  }

  /** Every page from `page` to the last, concatenated in order. */
  function PagesFrom<T>(workouts: seq<T>, page: int): seq<T>
    requires page >= 1
    decreases TotalPages(|workouts|) + 1 - page
  {
    if page > TotalPages(|workouts|) then []
    else CurrentWorkouts(workouts, page) + PagesFrom(workouts, page + 1)
  }

  /** The pages from `page` on are exactly the suffix of the list that
      starts at that page. */
  lemma {:induction false} PagesFromIsSuffix<T>(workouts: seq<T>, page: int)
    requires 1 <= page <= TotalPages(|workouts|) + 1
    ensures PagesFrom(workouts, page) ==
      if PageStart(page) >= |workouts| then [] else workouts[PageStart(page)..]
    decreases TotalPages(|workouts|) + 1 - page
  {
    if page <= TotalPages(|workouts|) {
      PagesFromIsSuffix(workouts, page + 1);
      var r := CurrentWorkouts(workouts, page);
      var lo := PageStart(page);
      if page < TotalPages(|workouts|) {
        assert PageStart(page + 1) == lo + |r| < |workouts|;
        assert workouts[lo..] == r + workouts[lo + |r|..];
      } else {
        assert workouts[lo..] == r + [];
      }
    }
  }

  /** The pages partition the list: read in order, they give back every
      workout exactly once. */
  lemma PagesPartition<T>(workouts: seq<T>)
    ensures PagesFrom(workouts, 1) == workouts
  {
    PagesFromIsSuffix(workouts, 1);
    assert workouts[0..] == workouts;
  }

  /** Where a given workout is shown: item `i` sits on page
      `i / ItemsPerPage + 1` at position `i % ItemsPerPage`. */
  lemma PageOfItem<T>(workouts: seq<T>, i: nat)
    requires i < |workouts|
    ensures 1 <= i / ItemsPerPage + 1 <= TotalPages(|workouts|)
    ensures i % ItemsPerPage < |CurrentWorkouts(workouts, i / ItemsPerPage + 1)|
    ensures CurrentWorkouts(workouts, i / ItemsPerPage + 1)[i % ItemsPerPage] == workouts[i]
  {
    var p := i / ItemsPerPage + 1;
    assert i == (p - 1) * ItemsPerPage + i % ItemsPerPage;
    assert p <= TotalPages(|workouts|);
  }

  /** `goToNextPage`: one page forward, unless already on the last page. */
  function NextPage(page: int, total: nat): int
  {
    if page < total then page + 1 else page
  }

  /** `goToPrevPage`: one page back, unless already on the first page. */
  function PrevPage(page: int): int
  {
    if page > 1 then page - 1 else page
  }

  /** A page number the navigation can show: 1 up to the last page (page 1
      when there are no pages at all). */
  predicate InRange(page: int, total: nat)
  {
    1 <= page <= Max(1, total)
  }

  /** Both moves keep a page in range, and neither ever goes below page 1. */
  lemma NavigationKeepsRange(page: int, total: nat)
    requires InRange(page, total)
    ensures InRange(NextPage(page, total), total)
    ensures InRange(PrevPage(page), total)
    ensures NextPage(page, total) == page + 1 <==> page < total
    ensures PrevPage(page) == page - 1 <==> page > 1
  {
  }

  /** Next undoes previous, and previous undoes next, whenever the first
      move did move. */
  lemma NavigationRoundTrip(page: int, total: nat)
    requires InRange(page, total)
    ensures page > 1 ==> NextPage(PrevPage(page), total) == page
    ensures page < total ==> PrevPage(NextPage(page, total)) == page
  {
  }

  /** The page reached after pressing "next" `k` times. */
  function NextPages(page: int, total: nat, k: nat): int
    decreases k
  {
    if k == 0 then page else NextPages(NextPage(page, total), total, k - 1)
  }

  /** The page reached after pressing "previous" `k` times. */
  function PrevPages(page: int, k: nat): int
    decreases k
  {
    if k == 0 then page else PrevPages(PrevPage(page), k - 1)
  }

  /** Pressing "next" `k` times advances `k` pages but stops at the last. */
  lemma {:induction false} NextPagesStopsAtLast(page: int, total: nat, k: nat)
    requires InRange(page, total)
    ensures NextPages(page, total, k) == Max(page, Min(page + k, total))
    decreases k
  {
    if k > 0 {
      NavigationKeepsRange(page, total);
      NextPagesStopsAtLast(NextPage(page, total), total, k - 1);
    }
  }

  /** Pressing "previous" `k` times goes back `k` pages but stops at 1. */
  lemma {:induction false} PrevPagesStopsAtFirst(page: int, k: nat)
    requires page >= 1
    ensures PrevPages(page, k) == Max(1, page - k)
    decreases k
  {
    if k > 0 {
      PrevPagesStopsAtFirst(PrevPage(page), k - 1);
    }
  }
}
