/**
 * The layout engine of SMPageControl: the footprint of a row of indicators,
 * where the row starts under the horizontal alignment, where an indicator of
 * a given height starts under the vertical alignment, and the rectangle
 * reserved for one page.
 */
module Layout {
  import opened Geometry

  /** SMPageControlAlignment. */
  datatype Alignment = Left | Center | Right

  /** SMPageControlVerticalAlignment. */
  datatype VerticalAlignment = Top | Middle | Bottom

  /** DEFAULT_INDICATOR_WIDTH: the initial diameter and measured size. */
  const DefaultIndicatorWidth: real := 6.0

  /** DEFAULT_INDICATOR_MARGIN: the initial gap between two indicators. */
  const DefaultIndicatorMargin: real := 10.0

  /** MIN_HEIGHT: the least height SizeToFit gives the control. */
  const MinHeight: real := 36.0

  /** The fields of the control that the layout formulas read. */
  datatype Metrics = Metrics(
    numberOfPages: int,
    measuredWidth: real,
    measuredHeight: real,
    margin: real,
    alignment: Alignment,
    verticalAlignment: VerticalAlignment,
    bounds: Rect)

  /** Width and height of a row of `pageCount` indicators. */
  function SizeForNumberOfPages(m: Metrics, pageCount: int): (s: Size)
    ensures s.height == m.measuredHeight
    ensures pageCount == 0 ==> s.width == 0.0
  {
    var marginSpace := IntMax(0, pageCount - 1) as real * m.margin;
    var indicatorSpace := pageCount as real * m.measuredWidth;
    Size(marginSpace + indicatorSpace, m.measuredHeight)
  }

  /**
   * Reference definition of a row's width, one indicator at a time: the
   * first indicator takes `measuredWidth`, each further one a margin and
   * another `measuredWidth`.
   */
  function RowWidth(m: Metrics, n: nat): real
  {
    if n == 0 then 0.0
    else if n == 1 then m.measuredWidth
    else RowWidth(m, n - 1) + m.margin + m.measuredWidth
  }

  /** The closed formula of SizeForNumberOfPages lays out the row indicator by indicator. */
  lemma {:induction false} FootprintIsRowWidth(m: Metrics, n: nat)
    ensures SizeForNumberOfPages(m, n).width == RowWidth(m, n)
  {
    if n >= 2 {
      FootprintIsRowWidth(m, n - 1);
      assert n as real * m.measuredWidth == (n - 1) as real * m.measuredWidth + m.measuredWidth;
      assert (n - 1) as real * m.margin == (n - 2) as real * m.margin + m.margin;
    }
  }

  /** Width of the row of all `numberOfPages` indicators. */
  function Footprint(m: Metrics): real
  {
    SizeForNumberOfPages(m, m.numberOfPages).width
  }

  /**
   * The x-coordinate where the row starts. Left alignment gives 0, not
   * `bounds.x`; Center puts the row's midpoint on the bounds' midpoint;
   * Right puts the row's end on the bounds' right edge.
   */
  function LeftOffset(m: Metrics): (left: real)
    ensures m.alignment == Left ==> left == 0.0
    ensures m.alignment == Center ==> left + Footprint(m) / 2.0 == MidX(m.bounds)
    ensures m.alignment == Right ==> left + Footprint(m) == MaxX(m.bounds)
  {
    var size := SizeForNumberOfPages(m, m.numberOfPages);
    match m.alignment
    case Center => MidX(m.bounds) - size.width / 2.0
    case Right => MaxX(m.bounds) - size.width
    case Left => 0.0
  }

  /**
   * The y-coordinate where a visual of the given height starts inside
   * `rect`. Top alignment gives 0, not `rect.y`; Middle centres the visual
   * on the rectangle's midpoint; Bottom puts its lower edge on the
   * rectangle's lower edge.
   */
  function TopOffsetForHeight(v: VerticalAlignment, height: real, rect: Rect): (top: real)
    ensures v == Top ==> top == 0.0
    ensures v == Middle ==> top + height / 2.0 == MidY(rect)
    ensures v == Bottom ==> top + height == MaxY(rect)
  {
    match v
    case Middle => MidY(rect) - height / 2.0
    case Bottom => MaxY(rect) - height
    case Top => 0.0
  }

  /**
   * The square reserved for page `pageIndex`: empty outside the pages;
   * otherwise side `measuredWidth`, at y = 0, starting `pageIndex` slot
   * widths (indicator plus margin) after the row's left offset.
   */
  function RectForPageIndicator(m: Metrics, pageIndex: int): (r: Rect)
    ensures !(0 <= pageIndex < m.numberOfPages) ==> r == EmptyRect
    ensures 0 <= pageIndex < m.numberOfPages ==>
      r == Rect(LeftOffset(m) + pageIndex as real * (m.measuredWidth + m.margin), 0.0,
                m.measuredWidth, m.measuredWidth)
  {
    if pageIndex < 0 || pageIndex >= m.numberOfPages then EmptyRect
    else
      var left := LeftOffset(m);
      var size := SizeForNumberOfPages(m, pageIndex + 1);
      assert size.width - m.measuredWidth == pageIndex as real * (m.measuredWidth + m.margin);
      Rect(left + size.width - m.measuredWidth, 0.0, m.measuredWidth, m.measuredWidth)
  }

  /**
   * Consecutive slots lie exactly one indicator plus one margin apart, so
   * with a non-negative margin a slot ends before the next one starts.
   */
  lemma SlotsAreEvenlySpaced(m: Metrics, i: int)
    requires 0 <= i && i + 1 < m.numberOfPages
    ensures RectForPageIndicator(m, i + 1).x
         == RectForPageIndicator(m, i).x + m.measuredWidth + m.margin
    ensures 0.0 <= m.margin ==>
      MaxX(RectForPageIndicator(m, i)) <= RectForPageIndicator(m, i + 1).x
  {
  }

  /**
   * The footprint spans the slots exactly: it starts where the first slot
   * starts and ends where the last slot ends.
   */
  lemma FootprintSpansSlots(m: Metrics)
    requires 1 <= m.numberOfPages
    ensures RectForPageIndicator(m, 0).x == LeftOffset(m)
    ensures MaxX(RectForPageIndicator(m, m.numberOfPages - 1)) == LeftOffset(m) + Footprint(m)
  {
    var n := m.numberOfPages;
    assert (n - 1) as real * (m.measuredWidth + m.margin) + m.measuredWidth
        == n as real * m.measuredWidth + (n - 1) as real * m.margin;
  }

  /**
   * The size SizeToFit gives the frame: the footprint's width, and its
   * height raised to at least MinHeight.
   */
  function FitSize(m: Metrics): (s: Size)
    ensures s.width == Footprint(m)
    ensures MinHeight <= s.height && m.measuredHeight <= s.height
    ensures s.height == MinHeight || s.height == m.measuredHeight
  {
    var size := SizeForNumberOfPages(m, m.numberOfPages);
    Size(size.width, Max(size.height, MinHeight))
  }

  /** The x-coordinate that splits a tap into "previous page" and "next page". */
  function TapMidpoint(m: Metrics): real
  {
    LeftOffset(m) + Footprint(m) / 2.0
  }

  /**
   * The page a tap at `pointX` asks for: one before the current page when
   * left of the footprint's midpoint, one after it otherwise.
   */
  function TapTarget(m: Metrics, currentPage: int, pointX: real): (target: int)
    ensures target == currentPage - 1 || target == currentPage + 1
    ensures target < currentPage <==> pointX < TapMidpoint(m)
  {
    var size := SizeForNumberOfPages(m, m.numberOfPages);
    var left := LeftOffset(m);
    var middle := left + size.width / 2.0;
    if pointX < middle then currentPage - 1 else currentPage + 1
  }

  /** A centred row splits taps at the midpoint of the bounds. */
  lemma CenteredTapSplitsAtBoundsMidpoint(m: Metrics)
    requires m.alignment == Center
    ensures TapMidpoint(m) == MidX(m.bounds)
  {
  }
}
