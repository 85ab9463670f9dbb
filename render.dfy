/**
 * The indicator resolver and renderer of SMPageControl. Instead of calling
 * CoreGraphics, a render pass produces the sequence of draw commands it
 * would issue, one per page, in page order.
 */
module Render {
  import opened Optional
  import opened Geometry
  import opened Layout
  import opened Images

  /** UIColor values as tokens: the two fallbacks and any colour set by the host. */
  datatype Color = White | WhiteAlpha30 | Custom(token: nat)

  /** One drawing operation: an image blit, a masked fill or a filled ellipse, with the fill colour set before it. */
  datatype DrawCommand =
    | DrawImage(image: Image, rect: Rect, fill: Color)
    | DrawMask(mask: Mask, rect: Rect, fill: Color)
    | FillEllipse(rect: Rect, fill: Color)

  /** The fields of the control that a render pass reads. */
  datatype Look = Look(
    metrics: Metrics,
    displayedPage: int,
    indicatorDiameter: real,
    hidesForSinglePage: bool,
    pageIndicatorImage: Option<Image>,
    currentPageIndicatorImage: Option<Image>,
    pageIndicatorMaskImage: Option<Image>,
    pageImageMask: Option<Mask>,
    pageIndicatorTintColor: Option<Color>,
    currentPageIndicatorTintColor: Option<Color>,
    pageImages: map<int, Image>,
    currentPageImages: map<int, Image>,
    pageImageMasks: map<int, Image>,
    cgImageMasks: map<int, Mask>)

  /** The fill colour of page `i`: the current tint (White by default) on the displayed page, the page tint (30% White) elsewhere. */
  function FillColor(look: Look, i: int): (fill: Color)
    ensures i == look.displayedPage && look.currentPageIndicatorTintColor.Some? ==>
      fill == look.currentPageIndicatorTintColor.value
    ensures i == look.displayedPage && look.currentPageIndicatorTintColor.None? ==> fill == White
    ensures i != look.displayedPage && look.pageIndicatorTintColor.Some? ==>
      fill == look.pageIndicatorTintColor.value
    ensures i != look.displayedPage && look.pageIndicatorTintColor.None? ==> fill == WhiteAlpha30
  {
    if i == look.displayedPage then look.currentPageIndicatorTintColor.GetOr(White)
    else look.pageIndicatorTintColor.GetOr(WhiteAlpha30)
  }

  /** The finished image for page `i` in its state: the per-page one, else the global one. */
  function StateImage(look: Look, i: int): (image: Option<Image>)
    ensures var perPage := if i == look.displayedPage then look.currentPageImages else look.pageImages;
      var global := if i == look.displayedPage then look.currentPageIndicatorImage else look.pageIndicatorImage;
      (i in perPage ==> image == Some(perPage[i])) &&
      (i !in perPage ==> image == global)
  {
    if i == look.displayedPage then
      var image := Get(look.currentPageImages, i);
      if image.None? then look.currentPageIndicatorImage else image
    else
      var image := Get(look.pageImages, i);
      if image.None? then look.pageIndicatorImage else image
  }

  /** What the loop body settles on for one page, with the size a mask is drawn at. */
  datatype Visual = ImageVisual(image: Image) | MaskVisual(mask: Mask, size: Size) | EllipseVisual

  /**
   * The loop body's resolution of page `i`, given the mask size left by the
   * earlier pages: the visual, and the mask size passed on. The mask size
   * changes only where a mask is looked for, and only to the size of a mask
   * image that is set; otherwise the earlier size stays.
   */
  function Resolve(look: Look, i: int, maskSize: Size): (r: (Visual, Size))
    ensures r.0.ImageVisual? <==> StateImage(look, i).Some?
    ensures r.0.ImageVisual? ==> r.0.image == StateImage(look, i).value && r.1 == maskSize
    ensures r.0.MaskVisual? ==>
      r.0.size == r.1 &&
      (i in look.cgImageMasks ==> r.0.mask == look.cgImageMasks[i]) &&
      (i !in look.cgImageMasks ==> look.pageImageMask == Some(r.0.mask))
    ensures r.0.EllipseVisual? <==>
      StateImage(look, i).None? && i !in look.cgImageMasks && look.pageImageMask.None?
    ensures r.1 == maskSize ||
      (i in look.pageImageMasks && r.1 == look.pageImageMasks[i].Size()) ||
      (look.pageIndicatorMaskImage.Some? && r.1 == look.pageIndicatorMaskImage.value.Size())
  {
    var image := StateImage(look, i);
    if image.Some? then (ImageVisual(image.value), maskSize)
    else
      var perPage := Get(look.cgImageMasks, i);
      var original := Get(look.pageImageMasks, i);
      var size := if original.Some? then original.value.Size() else maskSize;
      if perPage.Some? then (MaskVisual(perPage.value, size), size)
      else
        var globalSize :=
          if look.pageIndicatorMaskImage.Some? then look.pageIndicatorMaskImage.value.Size() else size;
        if look.pageImageMask.Some? then (MaskVisual(look.pageImageMask.value, globalSize), globalSize)
        else (EllipseVisual, globalSize)
  }

  /**
   * The rectangle a visual of the given size is drawn in when its slot
   * starts at `xOffset`: centred in the slot by `floor((measuredWidth - w) / 2)`,
   * and placed vertically inside `rect` by its own height.
   */
  function PlaceIn(look: Look, rect: Rect, xOffset: real, size: Size): Rect
  {
    var y := TopOffsetForHeight(look.metrics.verticalAlignment, size.height, rect);
    var x := xOffset + Floor((look.metrics.measuredWidth - size.width) / 2.0);
    Rect(x, y, size.width, size.height)
  }

  /** The draw command for a resolved visual. */
  function Draw(look: Look, rect: Rect, xOffset: real, v: Visual, fill: Color): DrawCommand
  {
    match v
    case ImageVisual(image) => DrawImage(image, PlaceIn(look, rect, xOffset, image.Size()), fill)
    case MaskVisual(mask, size) => DrawMask(mask, PlaceIn(look, rect, xOffset, size), fill)
    case EllipseVisual =>
      var d := look.indicatorDiameter;
      FillEllipse(PlaceIn(look, rect, xOffset, Size(d, d)), fill)
  }

  /** The amount `xOffset` advances by from one page to the next. */
  function Stride(look: Look): real
  {
    look.metrics.measuredWidth + look.metrics.margin
  }

  /** The commands for pages `i` to `numberOfPages - 1`, the loop's state being `xOffset` and `maskSize`. */
  function PagesFrom(look: Look, rect: Rect, i: nat, xOffset: real, maskSize: Size): (cmds: seq<DrawCommand>)
    ensures |cmds| == IntMax(0, look.metrics.numberOfPages - i)
    decreases look.metrics.numberOfPages - i
  {
    if i >= look.metrics.numberOfPages then []
    else
      var (v, size) := Resolve(look, i, maskSize);
      [Draw(look, rect, xOffset, v, FillColor(look, i))]
        + PagesFrom(look, rect, i + 1, xOffset + Stride(look), size)
  }

  /** Appending commands one at a time keeps the order: concatenation is associative. */
  lemma AppendCommand(done: seq<DrawCommand>, cmd: DrawCommand, rest: seq<DrawCommand>)
    ensures (done + [cmd]) + rest == done + ([cmd] + rest)
  {
  }

  /** Whether the control draws nothing: fewer than two pages and HidesForSinglePage set. */
  predicate Hidden(look: Look)
  {
    look.metrics.numberOfPages < 2 && look.hidesForSinglePage
  }

  /** The commands RenderPages issues into `rect`. */
  function RenderPages(look: Look, rect: Rect): (cmds: seq<DrawCommand>)
    ensures Hidden(look) ==> cmds == []
    ensures !Hidden(look) ==> |cmds| == IntMax(0, look.metrics.numberOfPages)
  {
    if Hidden(look) then []
    else PagesFrom(look, rect, 0, LeftOffset(look.metrics), ZeroSize)
  }

  // ---------------------------------------------------------------------
  // Reference definition of the precedence, as an ordered list of tiers.

  /** The kind of visual source a page is drawn from. */
  datatype Source = ImageSource(image: Image) | MaskSource(mask: Mask) | EllipseSource

  function ImageTier(image: Option<Image>): Option<Source>
  {
    if image.Some? then Some(ImageSource(image.value)) else None
  }

  function MaskTier(mask: Option<Mask>): Option<Source>
  {
    if mask.Some? then Some(MaskSource(mask.value)) else None
  }

  /**
   * The five precedence tiers of page `i`, highest first: the per-page
   * image for its state, the global image for its state, the per-page
   * derived mask, the global derived mask, and the ellipse.
   */
  function Tiers(look: Look, i: int): seq<Option<Source>>
  {
    var current := i == look.displayedPage;
    [ ImageTier(Get(if current then look.currentPageImages else look.pageImages, i)),
      ImageTier(if current then look.currentPageIndicatorImage else look.pageIndicatorImage),
      MaskTier(Get(look.cgImageMasks, i)),
      MaskTier(look.pageImageMask),
      Some(EllipseSource) ]
  }

  /** The first tier that is present. */
  function FirstPresent(tiers: seq<Option<Source>>): Option<Source>
  {
    if tiers == [] then None
    else if tiers[0].Some? then tiers[0]
    else FirstPresent(tiers[1..])
  }

  /** The source a draw command comes from. */
  function SourceOf(c: DrawCommand): Source
  {
    match c
    case DrawImage(image, _, _) => ImageSource(image)
    case DrawMask(mask, _, _) => MaskSource(mask)
    case FillEllipse(_, _) => EllipseSource
  }

  /** The loop body's cascade of null checks picks the first present tier, whatever the carried mask size. */
  lemma ResolveFollowsTiers(look: Look, rect: Rect, i: int, xOffset: real, maskSize: Size)
    ensures var c := Draw(look, rect, xOffset, Resolve(look, i, maskSize).0, FillColor(look, i));
      FirstPresent(Tiers(look, i)) == Some(SourceOf(c))
  {
    var t := Tiers(look, i);
    FirstPresentOfFive(t[0], t[1], t[2], t[3], t[4]);
    assert t == [t[0], t[1], t[2], t[3], t[4]];
  }

  /** The first present tier of five, spelled out. */
  lemma FirstPresentOfFive(a: Option<Source>, b: Option<Source>, c: Option<Source>, d: Option<Source>, e: Option<Source>)
    ensures FirstPresent([a, b, c, d, e])
         == if a.Some? then a else if b.Some? then b else if c.Some? then c else if d.Some? then d else e
  {
    assert [e][1..] == [];
    assert FirstPresent([e]) == e;
    assert [d, e][1..] == [e];
    assert FirstPresent([d, e]) == if d.Some? then d else e;
    assert [c, d, e][1..] == [d, e];
    assert FirstPresent([c, d, e]) == if c.Some? then c else FirstPresent([d, e]);
    assert [b, c, d, e][1..] == [c, d, e];
    assert FirstPresent([b, c, d, e]) == if b.Some? then b else FirstPresent([c, d, e]);
    assert [a, b, c, d, e][1..] == [b, c, d, e];
    assert FirstPresent([a, b, c, d, e]) == if a.Some? then a else FirstPresent([b, c, d, e]);
  }

  /** The slot of page `k` starts `k` strides after the left offset. */
  lemma SlotStart(look: Look, k: nat)
    requires k < look.metrics.numberOfPages
    ensures RectForPageIndicator(look.metrics, k).x == LeftOffset(look.metrics) + k as real * Stride(look)
  {
  }

  /** Every draw command carries the fill it was given and sits centred in its slot, placed vertically by its own height. */
  lemma DrawPlacement(look: Look, rect: Rect, xOffset: real, v: Visual, fill: Color)
    ensures var c := Draw(look, rect, xOffset, v, fill);
      c.fill == fill &&
      c.rect.x == xOffset + Floor((look.metrics.measuredWidth - c.rect.width) / 2.0) &&
      c.rect.y == TopOffsetForHeight(look.metrics.verticalAlignment, c.rect.height, rect)
  {
  }

  /** Where the pass stands when it reaches page `k`, having started at page `i` with `maskSize`. */
  function MaskSizeAt(look: Look, i: nat, maskSize: Size, k: nat): Size
    requires i <= k
    decreases k - i
  {
    if i == k then maskSize else MaskSizeAt(look, i + 1, Resolve(look, i, maskSize).1, k)
  }

  /** The offset `n` strides along from `x`, reached as the loop reaches it: one stride at a time. */
  function SlotOffset(x: real, stride: real, n: nat): real
    decreases n
  {
    if n == 0 then x else SlotOffset(x + stride, stride, n - 1)
  }

  /** Stepping `n` strides one at a time lands `n` times the stride along. */
  lemma {:induction false} SlotOffsetIsLinear(x: real, stride: real, n: nat)
    ensures SlotOffset(x, stride, n) == x + n as real * stride
    decreases n
  {
    if n > 0 {
      SlotOffsetIsLinear(x + stride, stride, n - 1);
    }
  }

  /** Command `k - i` of a pass started at page `i` draws page `k` in the slot `k - i` strides along. */
  lemma {:induction false} PagesFromAt(look: Look, rect: Rect, i: nat, xOffset: real, maskSize: Size, k: nat)
    requires i <= k < look.metrics.numberOfPages
    ensures PagesFrom(look, rect, i, xOffset, maskSize)[k - i]
         == Draw(look, rect, SlotOffset(xOffset, Stride(look), k - i),
                 Resolve(look, k, MaskSizeAt(look, i, maskSize, k)).0, FillColor(look, k))
    decreases k - i
  {
    var size := Resolve(look, i, maskSize).1;
    var next := xOffset + Stride(look);
    var rest := PagesFrom(look, rect, i + 1, next, size);
    PagesFromUnfold(look, rect, i, xOffset, maskSize);
    if i < k {
      PagesFromAt(look, rect, i + 1, next, size, k);
      assert MaskSizeAt(look, i, maskSize, k) == MaskSizeAt(look, i + 1, size, k);
      assert SlotOffset(xOffset, Stride(look), k - i) == SlotOffset(next, Stride(look), k - (i + 1));
    }
  }

  /** A pass at a page inside the range draws that page, then goes on one stride along. */
  lemma PagesFromUnfold(look: Look, rect: Rect, i: nat, xOffset: real, maskSize: Size)
    requires i < look.metrics.numberOfPages
    ensures PagesFrom(look, rect, i, xOffset, maskSize)
         == [Draw(look, rect, xOffset, Resolve(look, i, maskSize).0, FillColor(look, i))]
            + PagesFrom(look, rect, i + 1, xOffset + Stride(look), Resolve(look, i, maskSize).1)
  {
  }

  /**
   * Command `k` of a render pass draws page `k` from its first present
   * precedence tier, with the fill colour of its state (current exactly
   * when `k` is the displayed page).
   */
  lemma RenderedPageSource(look: Look, rect: Rect, k: nat)
    requires !Hidden(look) && k < look.metrics.numberOfPages
    ensures k < |RenderPages(look, rect)|
    ensures FirstPresent(Tiers(look, k)) == Some(SourceOf(RenderPages(look, rect)[k]))
    ensures RenderPages(look, rect)[k].fill == FillColor(look, k)
  {
    var ms := MaskSizeAt(look, 0, ZeroSize, k);
    var left := LeftOffset(look.metrics);
    var x := SlotOffset(left, Stride(look), k);
    PagesFromAt(look, rect, 0, left, ZeroSize, k);
    ResolveFollowsTiers(look, rect, k, x, ms);
    DrawPlacement(look, rect, x, Resolve(look, k, ms).0, FillColor(look, k));
  }

  /**
   * Command `k` of a render pass is centred horizontally in the slot that
   * RectForPageIndicator reserves for page `k`, and placed vertically
   * inside `rect` by its own height.
   */
  lemma RenderedPagePlacement(look: Look, rect: Rect, k: nat)
    requires !Hidden(look) && k < look.metrics.numberOfPages
    ensures k < |RenderPages(look, rect)|
    ensures var c := RenderPages(look, rect)[k];
      c.rect.x == RectForPageIndicator(look.metrics, k).x
                  + Floor((look.metrics.measuredWidth - c.rect.width) / 2.0) &&
      c.rect.y == TopOffsetForHeight(look.metrics.verticalAlignment, c.rect.height, rect)
  {
    var ms := MaskSizeAt(look, 0, ZeroSize, k);
    var left := LeftOffset(look.metrics);
    var x := SlotOffset(left, Stride(look), k);
    var c := Draw(look, rect, x, Resolve(look, k, ms).0, FillColor(look, k));
    PagesFromAt(look, rect, 0, left, ZeroSize, k);
    assert RenderPages(look, rect)[k] == c;
    DrawPlacement(look, rect, x, Resolve(look, k, ms).0, FillColor(look, k));
    SlotReached(look, k);
  }

  /** The loop reaches the slot of page `k` exactly where RectForPageIndicator puts it. */
  lemma SlotReached(look: Look, k: nat)
    requires k < look.metrics.numberOfPages
    ensures RectForPageIndicator(look.metrics, k).x == SlotOffset(LeftOffset(look.metrics), Stride(look), k)
  {
    SlotOffsetIsLinear(LeftOffset(look.metrics), Stride(look), k);
    SlotStart(look, k);
  }

  /**
   * The size a drawn visual takes: an image its own size, the ellipse the
   * diameter, a per-page mask the size of the page's mask image when it has
   * one, and the global mask the size of the global mask image when it is set.
   * A per-page mask without a mask image is drawn at the size the pass has
   * carried to page `k` from the earlier pages.
   */
  lemma RenderedSize(look: Look, rect: Rect, k: nat)
    requires !Hidden(look) && k < look.metrics.numberOfPages
    ensures k < |RenderPages(look, rect)|
    ensures var c := RenderPages(look, rect)[k];
      (c.DrawImage? ==> c.rect.width == c.image.width && c.rect.height == c.image.height) &&
      (c.FillEllipse? ==> c.rect.width == c.rect.height == look.indicatorDiameter) &&
      (c.DrawMask? && k in look.cgImageMasks && k in look.pageImageMasks ==>
         c.rect.width == look.pageImageMasks[k].width && c.rect.height == look.pageImageMasks[k].height) &&
      (c.DrawMask? && k !in look.cgImageMasks && look.pageIndicatorMaskImage.Some? ==>
         c.rect.width == look.pageIndicatorMaskImage.value.width &&
         c.rect.height == look.pageIndicatorMaskImage.value.height) &&
      (c.DrawMask? && k in look.cgImageMasks && k !in look.pageImageMasks ==>
         c.rect.width == MaskSizeAt(look, 0, ZeroSize, k).width &&
         c.rect.height == MaskSizeAt(look, 0, ZeroSize, k).height)
  {
    PagesFromAt(look, rect, 0, LeftOffset(look.metrics), ZeroSize, k);
  }

  /**
   * The mask size carries over between pages. Page 1 has a derived mask but
   * no mask image, as an out-of-range SetImageMask followed by a larger page
   * count leaves it. It is drawn at the size of page 0's mask image, not at
   * the size of its own source image.
   */
  lemma StaleMaskSizeExample(m: Metrics, rect: Rect)
    requires m.numberOfPages == 2
    ensures var small := Image(1, 4.0, 4.0);
      var large := Image(2, 9.0, 9.0);
      var look := Look(m, 0, 6.0, false, None, None, None, None, None, None, map[], map[],
                       map[0 := small], map[0 := AlphaMaskOf(small), 1 := AlphaMaskOf(large)]);
      var c := RenderPages(look, rect)[1];
      c.DrawMask? && c.mask == AlphaMaskOf(large) && c.rect.width == 4.0 && c.rect.height == 4.0
  {
    var small := Image(1, 4.0, 4.0);
    var large := Image(2, 9.0, 9.0);
    var look := Look(m, 0, 6.0, false, None, None, None, None, None, None, map[], map[],
                     map[0 := small], map[0 := AlphaMaskOf(small), 1 := AlphaMaskOf(large)]);
    PagesFromAt(look, rect, 0, LeftOffset(m), ZeroSize, 1);
    assert Resolve(look, 0, ZeroSize).1 == small.Size();
    assert MaskSizeAt(look, 0, ZeroSize, 1) == small.Size();
  }
}
