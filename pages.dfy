/**
 * Page arithmetic of SMPageControl: clamping a requested page, and
 * converting between a page number and a horizontal scroll offset.
 */
module Pages {
  import opened Geometry
  import opened Layout

  /**
   * The page SetCurrentPage keeps for a request of `page` among `pages`
   * pages: `min(max(0, page), pages - 1)`. With pages it lies in range and
   * keeps an in-range request; with no pages it is -1.
   */
  function ClampPage(page: int, pages: int): (c: int)
    ensures 0 < pages ==> 0 <= c < pages
    ensures 0 <= page < pages ==> c == page
    ensures 0 < pages && page < 0 ==> c == 0
    ensures 0 < pages && pages <= page ==> c == pages - 1
    ensures pages <= 0 ==> c == pages - 1
  {
    IntMin(IntMax(0, page), pages - 1)
  }

  /**
   * A tap moves an in-range current page by at most one step and keeps it
   * in range; it moves exactly one step unless the page is already at the
   * end the tap points to.
   */
  lemma TapMovesAtMostOnePage(m: Metrics, currentPage: int, pointX: real)
    requires 0 <= currentPage < m.numberOfPages
    ensures var p := ClampPage(TapTarget(m, currentPage, pointX), m.numberOfPages);
      0 <= p < m.numberOfPages &&
      -1 <= p - currentPage <= 1 &&
      (p == currentPage <==>
        (pointX < TapMidpoint(m) && currentPage == 0) ||
        (TapMidpoint(m) <= pointX && currentPage == m.numberOfPages - 1))
  {
  }

  /**
   * A UIScrollView as the page sync sees it: its horizontal content offset
   * and the width of its bounds (one page).
   */
  datatype ScrollView = ScrollView(offsetX: real, width: real)

  /**
   * The page UpdatePageNumberForScrollView reads from a scroll view:
   * `floor(offsetX / width)`, the page whose span contains the offset.
   * No clamping to the number of pages takes place.
   */
  function PageForScrollOffset(sv: ScrollView): (page: int)
    requires 0.0 < sv.width
    ensures page as real * sv.width <= sv.offsetX < (page + 1) as real * sv.width
  {
    var q := sv.offsetX / sv.width;
    var page := Floor(q).Floor;
    ScaleBounds(page, q, sv.width);
    assert q * sv.width == sv.offsetX;
    page
  }

  /** Scaling `k <= q < k + 1` by a positive width. */
  lemma ScaleBounds(k: int, q: real, w: real)
    requires 0.0 < w && k as real <= q < k as real + 1.0
    ensures k as real * w <= q * w < (k + 1) as real * w
  {
    assert (k + 1) as real * w == k as real * w + w;
  }

  /** Multiplying by a positive width keeps the order of two page numbers. */
  lemma ScaleMonotone(a: int, b: int, w: real)
    requires a <= b && 0.0 < w
    ensures a as real * w <= b as real * w
  {
    assert b as real * w == a as real * w + (b - a) as real * w;
  }

  /** The scroll view as SetScrollViewContentOffsetForCurrentPage leaves it. */
  function ContentOffsetForPage(sv: ScrollView, page: int): (r: ScrollView)
    ensures r.width == sv.width
  {
    ScrollView(sv.width * page as real, sv.width)
  }

  /** Scrolling to a page and reading the page back gives the same page. */
  lemma {:induction false} ScrollRoundTrip(sv: ScrollView, page: int)
    requires 0.0 < sv.width
    ensures PageForScrollOffset(ContentOffsetForPage(sv, page)) == page
  {
    var r := ContentOffsetForPage(sv, page);
    var p := PageForScrollOffset(r);
    assert r.offsetX == page as real * sv.width;
    if p < page {
      ScaleMonotone(p + 1, page, sv.width);
      assert false;
    } else if p > page {
      ScaleMonotone(page + 1, p, sv.width);
      assert false;
    }
  }
}
