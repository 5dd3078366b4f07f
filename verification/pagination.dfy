/** The pagination control of components/shared/paginationComp.tsx: the window
    of page numbers it shows (with -1 standing for an ellipsis), and which of
    its previous / next buttons are disabled. */
module Pagination {
  import opened Wrappers

  /** The entry `getPageNumbers` pushes for an ellipsis. */
  const Separator: int := -1

  /** Up to this many pages are listed without an ellipsis. */
  const MaxVisiblePages: int := 5

  /** 1, 2, ..., n. */
  function Range(n: int): (r: seq<int>)
    ensures |r| == if n < 0 then 0 else n
    ensures forall i :: 0 <= i < |r| ==> r[i] == i + 1
    decreases n
  {
    if n <= 0 then [] else Range(n - 1) + [n]
  }

  /** The window as one expression per branch of `getPageNumbers`. */
  function PageWindow(current: int, total: int): seq<int> {
    if total <= MaxVisiblePages then Range(total)
    else if current <= 3 then [1, 2, 3, 4, Separator, total]
    else if current >= total - 2 then [1, Separator, total - 3, total - 2, total - 1, total]
    else [1, Separator, current - 1, current, current + 1, Separator, total]
  }

  /** `getPageNumbers` with its loops. It lists every page when there are at
      most five, and otherwise the first page, the last page and a run of
      pages around the current one, with ellipses for what it leaves out. */
  method GetPageNumbers(current: int, total: int) returns (pages: seq<int>)
    ensures pages == PageWindow(current, total)
  {
    if total <= MaxVisiblePages {
      pages := AllPages(total);
    } else if current <= 3 {
      pages := LeadingPages(total);
    } else if current >= total - 2 {
      pages := TrailingPages(total);
    } else {
      pages := [];
      pages := pages + [1];
      pages := pages + [Separator];
      pages := pages + [current - 1];
      pages := pages + [current];
      pages := pages + [current + 1];
      pages := pages + [Separator];
      pages := pages + [total];
    }
  }

  /** The first branch: every page from 1 to `total`. */
  method AllPages(total: int) returns (pages: seq<int>)
    ensures pages == Range(total)
  {
    pages := [];
    var i := 1;
    while i <= total
      invariant 1 <= i <= if total < 1 then 1 else total + 1
      invariant pages == Range(i - 1)
    {
      pages := pages + [i];
      i := i + 1;
    }
  }

  /** The branch near the start: pages 1 to 4, an ellipsis, the last page. */
  method LeadingPages(total: int) returns (pages: seq<int>)
    ensures pages == [1, 2, 3, 4, Separator, total]
  {
    pages := [];
    var i := 1;
    while i <= 4
      invariant 1 <= i <= 5
      invariant pages == Range(i - 1)
    {
      pages := pages + [i];
      i := i + 1;
    }
    assert pages == [1, 2, 3, 4];
    pages := pages + [Separator];
    pages := pages + [total];
  }

  /** The branch near the end: the first page, an ellipsis, the last four. */
  method TrailingPages(total: int) returns (pages: seq<int>)
    ensures pages == [1, Separator, total - 3, total - 2, total - 1, total]
  {
    pages := [];
    pages := pages + [1];
    pages := pages + [Separator];
    var i := total - 3;
    while i <= total
      invariant total - 3 <= i <= total + 1
      invariant |pages| == 2 + (i - (total - 3))
      invariant pages[..2] == [1, Separator]
      invariant forall j :: 2 <= j < |pages| ==> pages[j] == total - 3 + (j - 2)
    {
      pages := pages + [i];
      i := i + 1;
    }
    assert pages[..2] == [pages[0], pages[1]];
  }

  predicate IsPage(x: int) {
    x != Separator
  }

  /** What the window promises whatever the current page: at most seven
      entries, first page first, last page last, page numbers strictly
      increasing within 1..total, consecutive pages where nothing is
      left out, and an ellipsis exactly where pages are left out, never at
      either end and never two in a row. */
  ghost predicate WellFormedWindow(ps: seq<int>, total: int) {
    && 0 < |ps| <= 7
    && ps[0] == 1
    && ps[|ps| - 1] == total
    && PagesInRange(ps, total)
    && PagesIncrease(ps)
    && RunsConsecutive(ps)
    && EllipsesMarkGaps(ps)
  }

  /** Every page entry lies in 1..total. */
  ghost predicate PagesInRange(ps: seq<int>, total: int) {
    forall i :: 0 <= i < |ps| && IsPage(ps[i]) ==> 1 <= ps[i] <= total
  }

  /** Page entries strictly increase from left to right. */
  ghost predicate PagesIncrease(ps: seq<int>) {
    forall i, j :: 0 <= i < j < |ps| && IsPage(ps[i]) && IsPage(ps[j]) ==> ps[i] < ps[j]
  }

  /** Two pages side by side are consecutive: nothing is left out between them. */
  ghost predicate RunsConsecutive(ps: seq<int>) {
    forall i :: 0 <= i < |ps| - 1 && IsPage(ps[i]) && IsPage(ps[i + 1]) ==> ps[i + 1] == ps[i] + 1
  }

  /** An ellipsis stands only between two pages with at least one page
      missing between them, so never at either end and never two in a row. */
  ghost predicate EllipsesMarkGaps(ps: seq<int>) {
    forall i :: 0 < i < |ps| - 1 && !IsPage(ps[i]) ==>
      IsPage(ps[i - 1]) && IsPage(ps[i + 1]) && ps[i + 1] > ps[i - 1] + 1
  }

  /** Every page is either listed or hidden behind an ellipsis between two
      listed neighbours. */
  ghost predicate Covers(ps: seq<int>, total: int) {
    forall p :: 1 <= p <= total ==>
      p in ps || exists i :: 0 < i < |ps| - 1 && !IsPage(ps[i]) && ps[i - 1] < p < ps[i + 1]
  }

  lemma {:induction false} WindowWellFormed(current: int, total: int)
    requires total > 1
    ensures WellFormedWindow(PageWindow(current, total), total)
    ensures total <= MaxVisiblePages ==> PageWindow(current, total) == Range(total)
    ensures 1 <= current <= total ==> current in PageWindow(current, total)
  {
    var ps := PageWindow(current, total);
    WindowInRange(current, total);
    WindowConsecutive(current, total);
    WindowGaps(current, total);
    LocalOrderIsGlobal(ps);
    WindowEnds(current, total);
    if 1 <= current <= total {
      WindowListsCurrent(current, total);
    }
  }

  lemma WindowEnds(current: int, total: int)
    requires total > 1
    ensures var ps := PageWindow(current, total);
      0 < |ps| <= 7 && ps[0] == 1 && ps[|ps| - 1] == total
  {
  }

  lemma WindowListsCurrent(current: int, total: int)
    requires 1 <= current <= total
    ensures current in PageWindow(current, total)
  {
    var ps := PageWindow(current, total);
    if total <= MaxVisiblePages {
      assert ps[current - 1] == current;
    } else if current <= 3 {
      assert ps[current - 1] == current;
    } else if current >= total - 2 {
      assert ps[current - total + 5] == current;
    } else {
      assert ps[3] == current;
    }
  }

  lemma WindowInRange(current: int, total: int)
    requires total > 1
    ensures PagesInRange(PageWindow(current, total), total)
  {
  }

  lemma WindowConsecutive(current: int, total: int)
    requires total > 1
    ensures RunsConsecutive(PageWindow(current, total))
  {
  }

  lemma WindowGaps(current: int, total: int)
    requires total > 1
    ensures EllipsesMarkGaps(PageWindow(current, total))
  {
    if total <= MaxVisiblePages {
      var ps := Range(total);
      assert forall i :: 0 <= i < |ps| ==> IsPage(ps[i]);
    } else if current <= 3 {
      LowGap(total);
    } else if current >= total - 2 {
      HighGap(total);
    } else {
      MiddleGaps(current, total);
    }
  }

  lemma LowGap(total: int)
    requires total > MaxVisiblePages
    ensures EllipsesMarkGaps([1, 2, 3, 4, Separator, total])
  {
  }

  lemma HighGap(total: int)
    requires total > MaxVisiblePages
    ensures EllipsesMarkGaps([1, Separator, total - 3, total - 2, total - 1, total])
  {
  }

  lemma MiddleGaps(current: int, total: int)
    requires 3 < current < total - 2
    ensures EllipsesMarkGaps([1, Separator, current - 1, current, current + 1, Separator, total])
  {
  }

  /** Pages increase throughout as soon as they increase locally: pages side
      by side are consecutive and an ellipsis jumps ahead. */
  lemma {:induction false} LocalOrderIsGlobal(ps: seq<int>)
    requires RunsConsecutive(ps) && EllipsesMarkGaps(ps)
    ensures PagesIncrease(ps)
  {
    forall i, j | 0 <= i < j < |ps| && IsPage(ps[i]) && IsPage(ps[j])
      ensures ps[i] < ps[j]
    {
      PagesIncreaseFrom(ps, i, j);
    }
  }

  lemma {:induction false} PagesIncreaseFrom(ps: seq<int>, i: int, j: int)
    requires RunsConsecutive(ps) && EllipsesMarkGaps(ps)
    requires 0 <= i < j < |ps| && IsPage(ps[i]) && IsPage(ps[j])
    ensures ps[i] < ps[j]
    decreases j - i
  {
    if IsPage(ps[i + 1]) {
      assert ps[i + 1] == ps[i] + 1;
      if i + 1 < j {
        PagesIncreaseFrom(ps, i + 1, j);
      }
    } else {
      assert IsPage(ps[i + 2]) && ps[i + 2] > ps[i] + 1;
      if i + 2 < j {
        PagesIncreaseFrom(ps, i + 2, j);
      }
    }
  }

  lemma WindowCovers(current: int, total: int)
    requires total > 1
    ensures Covers(PageWindow(current, total), total)
  {
    if total <= MaxVisiblePages {
      RangeCovers(total);
    } else if current <= 3 {
      LeadingCovers(total);
    } else if current >= total - 2 {
      TrailingCovers(total);
    } else {
      MiddleCovers(current, total);
    }
  }

  lemma {:induction false} RangeCovers(total: int)
    ensures Covers(Range(total), total)
  {
    var ps := Range(total);
    forall p | 1 <= p <= total
      ensures p in ps
    {
      assert ps[p - 1] == p;
    }
  }

  lemma {:induction false} LeadingCovers(total: int)
    requires total > MaxVisiblePages
    ensures Covers([1, 2, 3, 4, Separator, total], total)
  {
    var ps := [1, 2, 3, 4, Separator, total];
    forall p | 1 <= p <= total
      ensures p in ps || exists i :: 0 < i < |ps| - 1 && !IsPage(ps[i]) && ps[i - 1] < p < ps[i + 1]
    {
      if p <= 4 {
        assert ps[p - 1] == p;
      } else if p == total {
        assert ps[5] == p;
      } else {
        assert 0 < 4 < |ps| - 1 && !IsPage(ps[4]) && ps[3] < p < ps[5];
      }
    }
  }

  lemma {:induction false} TrailingCovers(total: int)
    requires total > MaxVisiblePages
    ensures Covers([1, Separator, total - 3, total - 2, total - 1, total], total)
  {
    var ps := [1, Separator, total - 3, total - 2, total - 1, total];
    forall p | 1 <= p <= total
      ensures p in ps || exists i :: 0 < i < |ps| - 1 && !IsPage(ps[i]) && ps[i - 1] < p < ps[i + 1]
    {
      if p >= total - 3 {
        assert ps[p - total + 5] == p;
      } else if p == 1 {
        assert ps[0] == p;
      } else {
        assert 0 < 1 < |ps| - 1 && !IsPage(ps[1]) && ps[0] < p < ps[2];
      }
    }
  }

  lemma {:induction false} MiddleCovers(current: int, total: int)
    requires 3 < current < total - 2
    ensures Covers([1, Separator, current - 1, current, current + 1, Separator, total], total)
  {
    var ps := [1, Separator, current - 1, current, current + 1, Separator, total];
    forall p | 1 <= p <= total
      ensures p in ps || exists i :: 0 < i < |ps| - 1 && !IsPage(ps[i]) && ps[i - 1] < p < ps[i + 1]
    {
      if p == 1 {
        assert ps[0] == p;
      } else if p < current - 1 {
        assert 0 < 1 < |ps| - 1 && !IsPage(ps[1]) && ps[0] < p < ps[2];
      } else if p <= current + 1 {
        assert ps[p - current + 3] == p;
      } else if p < total {
        assert 0 < 5 < |ps| - 1 && !IsPage(ps[5]) && ps[4] < p < ps[6];
      } else {
        assert ps[6] == p;
      }
    }
  }

  /** What the component renders: nothing for a single page, otherwise the
      window and the disabled state of its two arrows. */
  datatype Controls = Controls(pages: seq<int>, prevDisabled: bool, nextDisabled: bool)

  function Render(current: int, total: int): Option<Controls> {
    if total <= 1 then None
    else Some(Controls(PageWindow(current, total), current == 1, current == total))
  }

  /** A rendered control shows a well-formed window that covers every page
      and lists the current one. */
  lemma RenderedWindow(current: int, total: int)
    ensures Render(current, total).None? <==> total <= 1
    ensures Render(current, total).Some? ==>
      var ps := Render(current, total).value.pages;
      && WellFormedWindow(ps, total)
      && Covers(ps, total)
      && (1 <= current <= total ==> current in ps)
  {
    if total > 1 {
      WindowWellFormed(current, total);
      WindowCovers(current, total);
    }
  }

  /** The page an arrow asks for, or None while it is disabled. */
  function PrevTarget(current: int, total: int): Option<int> {
    var r := Render(current, total);
    if r.Some? && !r.value.prevDisabled then Some(current - 1) else None
  }

  function NextTarget(current: int, total: int): Option<int> {
    var r := Render(current, total);
    if r.Some? && !r.value.nextDisabled then Some(current + 1) else None
  }

  /** From a page inside 1..total, neither arrow can lead outside 1..total:
      the disabled rules are exactly the bounds. */
  lemma ArrowsStayInRange(current: int, total: int)
    requires total > 1 && 1 <= current <= total
    ensures PrevTarget(current, total).Some? <==> current > 1
    ensures NextTarget(current, total).Some? <==> current < total
    ensures PrevTarget(current, total).Some? ==> 1 <= PrevTarget(current, total).value <= total
    ensures NextTarget(current, total).Some? ==> 1 <= NextTarget(current, total).value <= total
  {
  }
}
