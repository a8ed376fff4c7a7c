/**
 * The pagination bar: from the current page and the number of pages it
 * decides which controls appear, in order: a previous button, a shortcut to
 * page 1 and an ellipsis, a window of at most five numbered buttons around the
 * current page, an ellipsis and a shortcut to the last page, and a next button.
 */
module Pagination {
  import opened Common

  const MaxPagesToShow := 5
  const HalfMaxPages := MaxPagesToShow / 2

  /** First page of the window around the current page. */
  function StartPage(currentPage: int): int {
    Max(1, currentPage - HalfMaxPages)
  }

  /** Last page of the window around the current page. */
  function EndPage(currentPage: int, totalPages: int): int {
    Min(totalPages, currentPage + HalfMaxPages)
  }

  /** One control of the bar; a click on a button asks for page `target`/`page`. */
  datatype Item =
    | PrevButton(target: int)
    | PageButton(page: int, active: bool)
    | Dots
    | NextButton(target: int)

  predicate IsButton(it: Item) { !it.Dots? }

  function Target(it: Item): int
    requires IsButton(it)
  {
    match it
    case PrevButton(t) => t
    case PageButton(p, _) => p
    case NextButton(t) => t
  }

  /** `Array.from({length: endPage - startPage + 1}, (_, i) => startPage + i)`; a negative length gives no pages. */
  function WindowPages(currentPage: int, totalPages: int): seq<int> {
    var start := StartPage(currentPage);
    var count := Max(0, EndPage(currentPage, totalPages) - start + 1);
    seq(count, i => start + i)
  }

  /** The numbered buttons of the window; only the current page is marked active. */
  function Window(currentPage: int, totalPages: int): seq<Item> {
    var pages := WindowPages(currentPage, totalPages);
    seq(|pages|, i requires 0 <= i < |pages| => PageButton(pages[i], currentPage == pages[i]))
  }

  function PrevPart(currentPage: int): seq<Item> {
    if currentPage > 1 then [PrevButton(currentPage - 1)] else []
  }

  function FirstPart(currentPage: int): seq<Item> {
    var start := StartPage(currentPage);
    if start > 1 then [PageButton(1, false)] + (if start > 2 then [Dots] else []) else []
  }

  function LastPart(currentPage: int, totalPages: int): seq<Item> {
    var end := EndPage(currentPage, totalPages);
    if end < totalPages then (if end < totalPages - 1 then [Dots] else []) + [PageButton(totalPages, false)] else []
  }

  function NextPart(currentPage: int, totalPages: int): seq<Item> {
    if currentPage < totalPages then [NextButton(currentPage + 1)] else []
  }

  /** The controls between the previous and the next button. */
  function Middle(currentPage: int, totalPages: int): seq<Item> {
    FirstPart(currentPage) + Window(currentPage, totalPages) + LastPart(currentPage, totalPages)
  }

  /** The whole bar, left to right. */
  function Bar(currentPage: int, totalPages: int): seq<Item> {
    PrevPart(currentPage) + Middle(currentPage, totalPages) + NextPart(currentPage, totalPages)
  }

  /**
   * The window is the run of consecutive pages from StartPage to EndPage:
   * at most five of them, none when EndPage < StartPage.
   */
  lemma WindowIsConsecutive(currentPage: int, totalPages: int)
    ensures var pages := WindowPages(currentPage, totalPages);
      && |pages| <= MaxPagesToShow
      && (|pages| == 0 <==> EndPage(currentPage, totalPages) < StartPage(currentPage))
      && (|pages| > 0 ==> pages[0] == StartPage(currentPage) && pages[|pages| - 1] == EndPage(currentPage, totalPages))
      && (forall i :: 0 <= i < |pages| - 1 ==> pages[i + 1] == pages[i] + 1)
  {
  }

  /** The previous button appears exactly when the current page is past page 1, and asks for the page before. */
  lemma PrevShownIff(currentPage: int, totalPages: int)
    ensures PrevButton(currentPage - 1) in Bar(currentPage, totalPages) <==> currentPage > 1
    ensures forall it :: it in Bar(currentPage, totalPages) && it.PrevButton? ==> it.target == currentPage - 1
  {
    var m := Middle(currentPage, totalPages);
    assert forall it :: it in m ==> !it.PrevButton?;
    assert Bar(currentPage, totalPages) == PrevPart(currentPage) + m + NextPart(currentPage, totalPages);
  }

  /** The next button appears exactly when the current page is before the last, and asks for the page after. */
  lemma NextShownIff(currentPage: int, totalPages: int)
    ensures NextButton(currentPage + 1) in Bar(currentPage, totalPages) <==> currentPage < totalPages
    ensures forall it :: it in Bar(currentPage, totalPages) && it.NextButton? ==> it.target == currentPage + 1
  {
    var m := Middle(currentPage, totalPages);
    assert forall it :: it in m ==> !it.NextButton?;
    assert Bar(currentPage, totalPages) == PrevPart(currentPage) + m + NextPart(currentPage, totalPages);
  }

  /** Every control of the bar comes from one of its five pieces. */
  lemma BarPieces(currentPage: int, totalPages: int)
    ensures forall it :: it in Bar(currentPage, totalPages) ==>
      it in PrevPart(currentPage) || it in FirstPart(currentPage) || it in Window(currentPage, totalPages)
      || it in LastPart(currentPage, totalPages) || it in NextPart(currentPage, totalPages)
  {
    var p, f, w := PrevPart(currentPage), FirstPart(currentPage), Window(currentPage, totalPages);
    var l, n := LastPart(currentPage, totalPages), NextPart(currentPage, totalPages);
    assert Bar(currentPage, totalPages) == p + f + w + l + n;
  }

  /** The window holds page buttons between StartPage and EndPage only. */
  lemma WindowBounds(currentPage: int, totalPages: int)
    ensures forall it :: it in Window(currentPage, totalPages) ==>
      it.PageButton? && StartPage(currentPage) <= it.page <= EndPage(currentPage, totalPages)
  {
    var w := Window(currentPage, totalPages);
    forall it | it in w
      ensures it.PageButton? && StartPage(currentPage) <= it.page <= EndPage(currentPage, totalPages)
    {
      var i :| 0 <= i < |w| && w[i] == it;
    }
  }

  /** Pages are never below 1 in any button when the current page is at least 1, whatever the page count. */
  lemma TargetsAtLeastOne(currentPage: int, totalPages: int)
    requires currentPage >= 1
    ensures forall it :: it in Bar(currentPage, totalPages) && IsButton(it) ==> Target(it) >= 1
  {
    BarPieces(currentPage, totalPages);
    WindowBounds(currentPage, totalPages);
  }

  /** With the current page inside [1, totalPages], every button asks for a page inside [1, totalPages]. */
  lemma TargetsInRange(currentPage: int, totalPages: int)
    requires 1 <= currentPage <= totalPages
    ensures forall it :: it in Bar(currentPage, totalPages) && IsButton(it) ==> 1 <= Target(it) <= totalPages
  {
    BarPieces(currentPage, totalPages);
    WindowBounds(currentPage, totalPages);
  }

  /** Indices of the bar whose button is marked active. */
  function ActiveIndices(items: seq<Item>): set<int> {
    set i | 0 <= i < |items| && items[i].PageButton? && items[i].active
  }

  /** With the current page inside [1, totalPages], exactly one button is active, and it is the current page's. */
  lemma ExactlyOneActive(currentPage: int, totalPages: int)
    requires 1 <= currentPage <= totalPages
    ensures exists k :: (ActiveIndices(Bar(currentPage, totalPages)) == {k}
      && Bar(currentPage, totalPages)[k] == PageButton(currentPage, true))
  {
    var p, f, w := PrevPart(currentPage), FirstPart(currentPage), Window(currentPage, totalPages);
    var l, n := LastPart(currentPage, totalPages), NextPart(currentPage, totalPages);
    var bar := Bar(currentPage, totalPages);
    assert bar == p + f + w + l + n;
    var start := StartPage(currentPage);
    var j := currentPage - start;
    assert 0 <= j < |w| && w[j] == PageButton(currentPage, true);
    var k := |p| + |f| + j;
    assert bar[k] == w[j];
    forall i | i in ActiveIndices(bar) ensures i == k {
      if |p| + |f| <= i < |p| + |f| + |w| {
        assert bar[i] == w[i - |p| - |f|];
      }
    }
    assert ActiveIndices(bar) == {k};
  }

  /**
   * The controls between previous and next read 1, …, totalPages with every
   * skipped run of pages replaced by one ellipsis: the first is page 1, the
   * last is page totalPages, adjacent numbered buttons are consecutive pages,
   * and an ellipsis stands between two numbered buttons exactly where pages
   * are skipped.
   */
  ghost predicate GapsMarked(m: seq<Item>, totalPages: int) {
    && |m| > 0
    && m[0].PageButton? && m[0].page == 1
    && m[|m| - 1].PageButton? && m[|m| - 1].page == totalPages
    && (forall i :: 0 <= i < |m| - 1 && m[i].PageButton? && m[i + 1].PageButton? ==> m[i + 1].page == m[i].page + 1)
    && (forall i :: 0 <= i < |m| && m[i].Dots? ==>
          0 < i < |m| - 1 && m[i - 1].PageButton? && m[i + 1].PageButton? && m[i + 1].page > m[i - 1].page + 1)
  }

  /** Item `i` of the middle part, read off the three pieces. */
  lemma MiddleAt(currentPage: int, totalPages: int, i: int)
    requires 1 <= currentPage <= totalPages
    requires 0 <= i < |Middle(currentPage, totalPages)|
    ensures var start, end := StartPage(currentPage), EndPage(currentPage, totalPages);
      var nf := |FirstPart(currentPage)|;
      var nw := end - start + 1;
      var m := Middle(currentPage, totalPages);
      && nw == |Window(currentPage, totalPages)| && 0 < nw
      && nf == (if start > 2 then 2 else if start > 1 then 1 else 0)
      && |m| == nf + nw + (if end < totalPages - 1 then 2 else if end < totalPages then 1 else 0)
      && (i < nf ==> m[i] == if i == 0 then PageButton(1, false) else Dots)
      && (nf <= i < nf + nw ==> m[i] == PageButton(start + i - nf, currentPage == start + i - nf))
      && (nf + nw <= i ==> m[i] == if i == |m| - 1 then PageButton(totalPages, false) else Dots)
  {
    var f, w, l := FirstPart(currentPage), Window(currentPage, totalPages), LastPart(currentPage, totalPages);
    var m := Middle(currentPage, totalPages);
    assert m == f + w + l;
    if i < |f| {
      assert m[i] == f[i];
    } else if i < |f| + |w| {
      assert m[i] == w[i - |f|];
    } else {
      assert m[i] == l[i - |f| - |w|];
    }
  }

  lemma MiddleStep(currentPage: int, totalPages: int, i: int)
    requires 1 <= currentPage <= totalPages
    requires 0 <= i < |Middle(currentPage, totalPages)| - 1
    ensures var m := Middle(currentPage, totalPages);
      m[i].PageButton? && m[i + 1].PageButton? ==> m[i + 1].page == m[i].page + 1
  {
    MiddleAt(currentPage, totalPages, i);
    MiddleAt(currentPage, totalPages, i + 1);
  }

  lemma MiddleDots(currentPage: int, totalPages: int, i: int)
    requires 1 <= currentPage <= totalPages
    requires 0 <= i < |Middle(currentPage, totalPages)|
    requires Middle(currentPage, totalPages)[i].Dots?
    ensures var m := Middle(currentPage, totalPages);
      && 0 < i < |m| - 1 && m[i - 1].PageButton? && m[i + 1].PageButton?
      && m[i + 1].page > m[i - 1].page + 1
  {
    MiddleAt(currentPage, totalPages, i);
    MiddleAt(currentPage, totalPages, i - 1);
    MiddleAt(currentPage, totalPages, i + 1);
  }

  lemma MiddleConsecutive(currentPage: int, totalPages: int)
    requires 1 <= currentPage <= totalPages
    ensures var m := Middle(currentPage, totalPages);
      forall i :: 0 <= i < |m| - 1 && m[i].PageButton? && m[i + 1].PageButton? ==> m[i + 1].page == m[i].page + 1
  {
    var m := Middle(currentPage, totalPages);
    forall i | 0 <= i < |m| - 1 && m[i].PageButton? && m[i + 1].PageButton?
      ensures m[i + 1].page == m[i].page + 1
    {
      MiddleStep(currentPage, totalPages, i);
    }
  }

  lemma MiddleDotsAtGaps(currentPage: int, totalPages: int)
    requires 1 <= currentPage <= totalPages
    ensures var m := Middle(currentPage, totalPages);
      forall i :: 0 <= i < |m| && m[i].Dots? ==>
        0 < i < |m| - 1 && m[i - 1].PageButton? && m[i + 1].PageButton? && m[i + 1].page > m[i - 1].page + 1
  {
    var m := Middle(currentPage, totalPages);
    forall i | 0 <= i < |m| && m[i].Dots?
      ensures 0 < i < |m| - 1 && m[i - 1].PageButton? && m[i + 1].PageButton? && m[i + 1].page > m[i - 1].page + 1
    {
      MiddleDots(currentPage, totalPages, i);
    }
  }

  lemma MiddleGapsMarked(currentPage: int, totalPages: int)
    requires 1 <= currentPage <= totalPages
    ensures GapsMarked(Middle(currentPage, totalPages), totalPages)
  {
    var m := Middle(currentPage, totalPages);
    MiddleAt(currentPage, totalPages, 0);
    MiddleAt(currentPage, totalPages, |m| - 1);
    MiddleConsecutive(currentPage, totalPages);
    MiddleDotsAtGaps(currentPage, totalPages);
  }

  /** No pages (an empty list gives a page count of 0) while on page 1: the bar is empty. */
  lemma NoPagesNoBar(totalPages: int)
    requires totalPages <= 0
    ensures Bar(1, totalPages) == []
  {
  }

  /**
   * A current page past the last one (the page is kept when the list behind
   * the bar shrinks): the bar ends with the window, with no last-page
   * shortcut and no next button, and no button is marked active.
   */
  lemma StalePageBar(currentPage: int, totalPages: int)
    requires currentPage > totalPages
    ensures Bar(currentPage, totalPages) == PrevPart(currentPage) + FirstPart(currentPage) + Window(currentPage, totalPages)
    ensures ActiveIndices(Bar(currentPage, totalPages)) == {}
  {
    var p, f, w := PrevPart(currentPage), FirstPart(currentPage), Window(currentPage, totalPages);
    var bar := Bar(currentPage, totalPages);
    assert bar == p + f + w;
    WindowBounds(currentPage, totalPages);
    forall i | 0 <= i < |bar| && bar[i].PageButton?
      ensures !bar[i].active
    {
      if |p| + |f| <= i {
        assert bar[i] == w[i - |p| - |f|];
        assert bar[i] in w;
      }
    }
  }

  /**
   * Two stale bars: page 3 of an empty list shows only a previous button, and
   * page 5 of two pages shows page 1 followed by an ellipsis with no page after it.
   */
  lemma StalePageExamples()
    ensures Bar(3, 0) == [PrevButton(2)]
    ensures Bar(5, 2) == [PrevButton(4), PageButton(1, false), Dots]
  {
    assert WindowPages(3, 0) == [];
    assert WindowPages(5, 2) == [];
  }

  /** A single page: the bar holds just the active button for page 1. */
  lemma SinglePageBar()
    ensures Bar(1, 1) == [PageButton(1, true)]
  {
    assert WindowPages(1, 1) == [1];
  }
}
