/**
 * The SMPageControl widget: one object whose setters update its fields in
 * place. Redraw requests (SetNeedsDisplay) are recorded in `needsDisplay`,
 * value-changed events (SendActionForControlEvents) are counted in
 * `valueChangedEvents`, and a render pass returns its draw commands.
 */
module PageControlWidget {
  import opened Optional
  import opened Geometry
  import opened Layout
  import opened Pages
  import opened Images
  import opened Render
  import opened Accessibility

  class SMPageControl {
    var numberOfPages: int
    var currentPage: int
    var indicatorMargin: real
    var indicatorDiameter: real
    var alignment: Alignment
    var verticalAlignment: VerticalAlignment

    var pageIndicatorImage: Option<Image>
    var pageIndicatorMaskImage: Option<Image>
    var pageIndicatorTintColor: Option<Color>
    var currentPageIndicatorImage: Option<Image>
    var currentPageIndicatorTintColor: Option<Color>

    /** Hide the indicators when there is only one page. */
    var hidesForSinglePage: bool
    /** A tap changes the current page but not the displayed one until UpdateCurrentPageDisplay. */
    var defersCurrentPageDisplay: bool

    var displayedPage: int
    var measuredIndicatorWidth: real
    var measuredIndicatorHeight: real
    /** The derived mask of pageIndicatorMaskImage. */
    var pageImageMask: Option<Mask>

    /** Per-page names; SetName stores an absent name rather than removing the entry. */
    var pageNames: map<int, Option<string>>
    var pageImages: map<int, Image>
    var currentPageImages: map<int, Image>
    var pageImageMasks: map<int, Image>
    /** The derived masks of the per-page mask images. */
    var cgImageMasks: map<int, Mask>

    /** The view's frame; the bounds are its size at the origin. */
    var frame: Rect
    /** The accessibility value of the underlying UIPageControl: an input the model never changes. */
    var pageControlAccessibilityValue: Option<string>
    /** The accessibility value this control exposes. */
    var accessibilityValue: Option<string>
    /** A redraw has been requested. */
    var needsDisplay: bool
    /** Value-changed events sent so far. */
    var valueChangedEvents: nat

    /**
     * The state every operation keeps: a non-negative page count, the global
     * derived mask in step with the global mask image, and a measured size
     * no smaller than the diameter (unless only images are in use) or any
     * global image or mask that is set.
     */
    ghost predicate Valid()
      reads this
    {
      0 <= numberOfPages &&
      pageImageMask == MaskOf(pageIndicatorMaskImage) &&
      CoversGlobals(Size(measuredIndicatorWidth, measuredIndicatorHeight), indicatorDiameter,
                    pageIndicatorImage, currentPageIndicatorImage, pageIndicatorMaskImage)
    }

    /** Initialize: no pages, the default diameter and margin, centred in both directions. */
    constructor (frame: Rect, pageControlValue: Option<string>)
      ensures Valid()
      ensures numberOfPages == 0 && currentPage == 0 && displayedPage == 0
      ensures indicatorDiameter == DefaultIndicatorWidth && indicatorMargin == DefaultIndicatorMargin
      ensures measuredIndicatorWidth == DefaultIndicatorWidth && measuredIndicatorHeight == DefaultIndicatorWidth
      ensures alignment == Center && verticalAlignment == Middle
      ensures !hidesForSinglePage && !defersCurrentPageDisplay
      ensures pageIndicatorImage == None && currentPageIndicatorImage == None && pageIndicatorMaskImage == None
      ensures pageImageMask == None && pageIndicatorTintColor == None && currentPageIndicatorTintColor == None
      ensures pageNames == map[] && pageImages == map[] && currentPageImages == map[]
      ensures pageImageMasks == map[] && cgImageMasks == map[]
      ensures this.frame == frame && pageControlAccessibilityValue == pageControlValue
      ensures accessibilityValue == None && !needsDisplay && valueChangedEvents == 0
    {
      numberOfPages := 0;
      currentPage := 0;
      displayedPage := 0;
      hidesForSinglePage := false;
      defersCurrentPageDisplay := false;
      measuredIndicatorWidth := DefaultIndicatorWidth;
      measuredIndicatorHeight := DefaultIndicatorWidth;
      indicatorDiameter := DefaultIndicatorWidth;
      indicatorMargin := DefaultIndicatorMargin;
      alignment := Center;
      verticalAlignment := Middle;
      pageIndicatorImage, currentPageIndicatorImage, pageIndicatorMaskImage := None, None, None;
      pageImageMask := None;
      pageIndicatorTintColor, currentPageIndicatorTintColor := None, None;
      pageNames := map[];
      pageImages := map[];
      currentPageImages := map[];
      pageImageMasks := map[];
      cgImageMasks := map[];
      this.frame := frame;
      pageControlAccessibilityValue := pageControlValue;
      accessibilityValue := None;
      needsDisplay := false;
      valueChangedEvents := 0;
    }

    /** The view's bounds: its frame's size at the origin. */
    function Bounds(): Rect
      reads this
    {
      Rect(0.0, 0.0, frame.width, frame.height)
    }

    /** The fields the layout formulas read. */
    function LayoutMetrics(): Metrics
      reads this
    {
      Metrics(numberOfPages, measuredIndicatorWidth, measuredIndicatorHeight, indicatorMargin,
              alignment, verticalAlignment, Bounds())
    }

    /** The fields a render pass reads. */
    function CurrentLook(): Look
      reads this
    {
      Look(LayoutMetrics(), displayedPage, indicatorDiameter, hidesForSinglePage,
           pageIndicatorImage, currentPageIndicatorImage, pageIndicatorMaskImage, pageImageMask,
           pageIndicatorTintColor, currentPageIndicatorTintColor,
           pageImages, currentPageImages, pageImageMasks, cgImageMasks)
    }

    // -------------------------------------------------------------------
    // Rendering

    /**
     * One render pass into `rect`: nothing when hidden, otherwise one draw
     * command per page, resolved and placed as Render.RenderPages says.
     */
    method RenderPages(rect: Rect) returns (cmds: seq<DrawCommand>)
      ensures cmds == Render.RenderPages(CurrentLook(), rect)
    {
      if numberOfPages < 2 && hidesForSinglePage {
        return [];
      }
      ghost var look := CurrentLook();
      var left := LeftOffset(LayoutMetrics());
      var xOffset := left;
      var maskingImage: Option<Mask> := None;
      var maskSize := ZeroSize;
      cmds := [];
      var i: nat := 0;
      while i < numberOfPages
        invariant maskingImage == None
        invariant cmds + PagesFrom(look, rect, i, xOffset, maskSize) == PagesFrom(look, rect, 0, left, ZeroSize)
        decreases numberOfPages - i
      {
        ghost var maskSizeBefore := maskSize;
        var fillColor, image := PageFillAndImage(i);
        if image.None? {
          maskingImage, maskSize := PageMask(i, maskSize);
        }
        var cmd := DrawPage(rect, xOffset, fillColor, image, maskingImage, maskSize);
        assert (if image.Some? then ImageVisual(image.value)
                else if maskingImage.Some? then MaskVisual(maskingImage.value, maskSize)
                else EllipseVisual, maskSize) == Resolve(look, i, maskSizeBefore);
        assert PagesFrom(look, rect, i, xOffset, maskSizeBefore)
            == [cmd] + PagesFrom(look, rect, i + 1, xOffset + measuredIndicatorWidth + indicatorMargin, maskSize);
        ghost var rest := PagesFrom(look, rect, i + 1, xOffset + measuredIndicatorWidth + indicatorMargin, maskSize);
        AppendCommand(cmds, cmd, rest);
        cmds := cmds + [cmd];

        maskingImage := None;
        xOffset := xOffset + measuredIndicatorWidth + indicatorMargin;
        i := i + 1;
      }
      assert PagesFrom(look, rect, i, xOffset, maskSize) == [];
      assert cmds == PagesFrom(look, rect, 0, left, ZeroSize);
    }

    /**
     * The first half of RenderPages' loop body: the fill colour and the
     * finished image of page `i`, by whether it is the displayed page.
     */
    method PageFillAndImage(i: int) returns (fillColor: Color, image: Option<Image>)
      ensures fillColor == FillColor(CurrentLook(), i)
      ensures image == StateImage(CurrentLook(), i)
    {
      if i == displayedPage {
        fillColor := if currentPageIndicatorTintColor.Some? then currentPageIndicatorTintColor.value else White;
        image := Get(currentPageImages, i);
        if image.None? {
          image := currentPageIndicatorImage;
        }
      } else {
        fillColor := if pageIndicatorTintColor.Some? then pageIndicatorTintColor.value else WhiteAlpha30;
        image := Get(pageImages, i);
        if image.None? {
          image := pageIndicatorImage;
        }
      }
    }

    /**
     * The masking fallback of RenderPages for a page with no finished image:
     * the per-page mask, else the global one, and the mask size carried on.
     */
    method PageMask(i: int, maskSize: Size) returns (maskingImage: Option<Mask>, newMaskSize: Size)
      requires StateImage(CurrentLook(), i).None?
      ensures newMaskSize == Resolve(CurrentLook(), i, maskSize).1
      ensures maskingImage.Some? <==> Resolve(CurrentLook(), i, maskSize).0.MaskVisual?
      ensures maskingImage.Some? ==> Resolve(CurrentLook(), i, maskSize).0 == MaskVisual(maskingImage.value, newMaskSize)
    {
      newMaskSize := maskSize;
      maskingImage := Get(cgImageMasks, i);
      var originalImage := Get(pageImageMasks, i);
      if originalImage.Some? {
        newMaskSize := originalImage.value.Size();
      }
      if maskingImage.None? {
        maskingImage := pageImageMask;
        if pageIndicatorMaskImage.Some? {
          newMaskSize := pageIndicatorMaskImage.value.Size();
        }
      }
    }

    /**
     * The drawing half of RenderPages' loop body: the finished image, else
     * the mask at the carried mask size, else a filled circle of the
     * indicator diameter, centred in the slot that starts at `xOffset`.
     */
    method DrawPage(rect: Rect, xOffset: real, fillColor: Color, image: Option<Image>,
                    maskingImage: Option<Mask>, maskSize: Size) returns (cmd: DrawCommand)
      ensures cmd == Draw(CurrentLook(), rect, xOffset,
                          if image.Some? then ImageVisual(image.value)
                          else if maskingImage.Some? then MaskVisual(maskingImage.value, maskSize)
                          else EllipseVisual, fillColor)
    {
      if image.Some? {
        var size := image.value.Size();
        var yOffset := TopOffsetForHeight(verticalAlignment, size.height, rect);
        var centeredXOffset := xOffset + Floor((measuredIndicatorWidth - size.width) / 2.0);
        cmd := DrawImage(image.value, Rect(centeredXOffset, yOffset, size.width, size.height), fillColor);
      } else if maskingImage.Some? {
        var yOffset := TopOffsetForHeight(verticalAlignment, maskSize.height, rect);
        var centeredXOffset := xOffset + Floor((measuredIndicatorWidth - maskSize.width) / 2.0);
        cmd := DrawMask(maskingImage.value, Rect(centeredXOffset, yOffset, maskSize.width, maskSize.height), fillColor);
      } else {
        var yOffset := TopOffsetForHeight(verticalAlignment, indicatorDiameter, rect);
        var centeredXOffset := xOffset + Floor((measuredIndicatorWidth - indicatorDiameter) / 2.0);
        cmd := FillEllipse(Rect(centeredXOffset, yOffset, indicatorDiameter, indicatorDiameter), fillColor);
      }
    }

    // -------------------------------------------------------------------
    // Page state

    /**
     * Commits a deferred page change: the displayed page becomes the
     * current page and a redraw is requested.
     */
    method UpdateCurrentPageDisplay()
      requires Valid()
      modifies this`displayedPage, this`needsDisplay
      ensures Valid()
      ensures displayedPage == currentPage && needsDisplay
    {
      displayedPage := currentPage;
      needsDisplay := true;
    }

    /**
     * Sets the current page to the clamped request. The displayed page
     * follows, with a redraw, unless deferral is on and this change may be
     * deferred; a value-changed event is sent exactly when asked for.
     */
    method SetCurrentPage(page: int, sendEvent: bool, canDefer: bool)
      requires Valid()
      modifies this`currentPage, this`displayedPage, this`needsDisplay, this`accessibilityValue,
               this`valueChangedEvents
      ensures Valid()
      ensures currentPage == ClampPage(page, numberOfPages)
      ensures displayedPage == if !defersCurrentPageDisplay || !canDefer then currentPage else old(displayedPage)
      ensures needsDisplay == (old(needsDisplay) || !defersCurrentPageDisplay || !canDefer)
      ensures valueChangedEvents == old(valueChangedEvents) + if sendEvent then 1 else 0
      ensures accessibilityValue == Some(ComposeValue(NameForPage(currentPage), pageControlAccessibilityValue))
    {
      currentPage := IntMin(IntMax(0, page), numberOfPages - 1);
      UpdateAccessibilityValue();
      if !defersCurrentPageDisplay || !canDefer {
        displayedPage := currentPage;
        needsDisplay := true;
      }
      if sendEvent {
        valueChangedEvents := valueChangedEvents + 1;
      }
    }

    /**
     * The CurrentPage property setter: sets the clamped page and displays it
     * at once, without an event.
     */
    method AssignCurrentPage(page: int)
      requires Valid()
      modifies this`currentPage, this`displayedPage, this`needsDisplay, this`accessibilityValue,
               this`valueChangedEvents
      ensures Valid()
      ensures currentPage == ClampPage(page, numberOfPages) && displayedPage == currentPage
      ensures needsDisplay && valueChangedEvents == old(valueChangedEvents)
      ensures accessibilityValue == Some(ComposeValue(NameForPage(currentPage), pageControlAccessibilityValue))
    {
      SetCurrentPage(page, false, false);
    }

    /**
     * A touch ending at horizontal position `pointX`: left of the
     * footprint's midpoint asks for the previous page, otherwise for the
     * next one, with an event and a deferrable display.
     */
    method TouchesEnded(pointX: real)
      requires Valid()
      modifies this`currentPage, this`displayedPage, this`needsDisplay, this`accessibilityValue,
               this`valueChangedEvents
      ensures Valid()
      ensures currentPage == ClampPage(TapTarget(LayoutMetrics(), old(currentPage), pointX), numberOfPages)
      ensures displayedPage == if !defersCurrentPageDisplay then currentPage else old(displayedPage)
      ensures needsDisplay == (old(needsDisplay) || !defersCurrentPageDisplay)
      ensures valueChangedEvents == old(valueChangedEvents) + 1
      ensures accessibilityValue == Some(ComposeValue(NameForPage(currentPage), pageControlAccessibilityValue))
    {
      var size := SizeForNumberOfPages(LayoutMetrics(), numberOfPages);
      var left := LeftOffset(LayoutMetrics());
      var middle := left + size.width / 2.0;
      if pointX < middle {
        SetCurrentPage(currentPage - 1, true, true);
      } else {
        SetCurrentPage(currentPage + 1, true, true);
      }
    }

    /**
     * Sets the page count (negative counts become 0). The current and
     * displayed pages are not re-clamped. Setting the count it already has
     * changes nothing.
     */
    method SetNumberOfPages(pages: int)
      requires Valid()
      modifies this`numberOfPages, this`accessibilityValue, this`needsDisplay
      ensures Valid()
      ensures old(numberOfPages) == pages ==>
        numberOfPages == pages && accessibilityValue == old(accessibilityValue) && needsDisplay == old(needsDisplay)
      ensures old(numberOfPages) != pages ==>
        numberOfPages == IntMax(0, pages) && needsDisplay &&
        accessibilityValue == Some(ComposeValue(NameForPage(currentPage), pageControlAccessibilityValue))
    {
      if numberOfPages == pages {
        return;
      }
      numberOfPages := IntMax(0, pages);
      UpdateAccessibilityValue();
      needsDisplay := true;
    }

    /** UpdatePageNumberForScrollView: the page of the scroll offset, not clamped to the page count. */
    method UpdatePageNumberForScrollView(scrollView: ScrollView)
      requires Valid()
      requires 0.0 < scrollView.width
      modifies this`currentPage
      ensures Valid()
      ensures currentPage == PageForScrollOffset(scrollView)
      ensures currentPage as real * scrollView.width <= scrollView.offsetX < (currentPage + 1) as real * scrollView.width
    {
      var page := Floor(scrollView.offsetX / scrollView.width).Floor;
      currentPage := page;
    }

    /**
     * SetScrollViewContentOffsetForCurrentPage: the scroll view scrolled to
     * the start of the current page, from which UpdatePageNumberForScrollView
     * reads the same page back.
     */
    method SetScrollViewContentOffsetForCurrentPage(scrollView: ScrollView, animated: bool) returns (scrolled: ScrollView)
      ensures scrolled.width == scrollView.width
      ensures scrolled.offsetX == scrollView.width * currentPage as real
      ensures 0.0 < scrollView.width ==> PageForScrollOffset(scrolled) == currentPage
    {
      scrolled := ScrollView(scrollView.width * currentPage as real, scrollView.width);
      if 0.0 < scrollView.width {
        assert scrolled == ContentOffsetForPage(scrollView, currentPage);
        ScrollRoundTrip(scrollView, currentPage);
      }
    }

    // -------------------------------------------------------------------
    // Geometry setters and measured size

    /** SizeToFit: the frame takes the footprint's width and a height of at least MinHeight. */
    method SizeToFit()
      requires Valid()
      modifies this`frame, this`needsDisplay
      ensures Valid()
      ensures var fit := FitSize(old(LayoutMetrics()));
        frame == Rect(old(frame.x), old(frame.y), fit.width, fit.height)
      ensures needsDisplay
    {
      var size := SizeForNumberOfPages(LayoutMetrics(), numberOfPages);
      size := Size(size.width, Max(size.height, MinHeight));
      frame := Rect(frame.x, frame.y, size.width, size.height);
      needsDisplay := true;
    }

    /** Sets the diameter and, when it changes, recomputes the measured size and requests a redraw. */
    method SetIndicatorDiameter(diameter: real)
      requires Valid()
      modifies this`indicatorDiameter, this`measuredIndicatorWidth, this`measuredIndicatorHeight, this`needsDisplay
      ensures Valid()
      ensures indicatorDiameter == diameter
      ensures old(indicatorDiameter) == diameter ==>
        measuredIndicatorWidth == old(measuredIndicatorWidth) &&
        measuredIndicatorHeight == old(measuredIndicatorHeight) && needsDisplay == old(needsDisplay)
      ensures old(indicatorDiameter) != diameter ==>
        needsDisplay &&
        Size(measuredIndicatorWidth, measuredIndicatorHeight)
          == MeasuredSize(diameter, pageIndicatorImage, currentPageIndicatorImage, pageIndicatorMaskImage)
    {
      if indicatorDiameter == diameter {
        return;
      }
      indicatorDiameter := diameter;
      UpdateMeasuredIndicatorSizes();
      needsDisplay := true;
    }

    /** Sets the margin and, when it changes, requests a redraw. */
    method SetIndicatorMargin(margin: real)
      requires Valid()
      modifies this`indicatorMargin, this`needsDisplay
      ensures Valid()
      ensures indicatorMargin == margin
      ensures needsDisplay == (old(needsDisplay) || old(indicatorMargin) != margin)
    {
      if indicatorMargin == margin {
        return;
      }
      indicatorMargin := margin;
      needsDisplay := true;
    }

    /** UpdateMeasuredIndicatorSizeWithSize: widens the measured size to cover `size`. */
    method UpdateMeasuredIndicatorSizeWithSize(size: Size)
      modifies this`measuredIndicatorWidth, this`measuredIndicatorHeight
      ensures Size(measuredIndicatorWidth, measuredIndicatorHeight)
           == GrowTo(old(Size(measuredIndicatorWidth, measuredIndicatorHeight)), size)
    {
      measuredIndicatorWidth := Max(measuredIndicatorWidth, size.width);
      measuredIndicatorHeight := Max(measuredIndicatorHeight, size.height);
    }

    /**
     * UpdateMeasuredIndicatorSizes: recomputes the measured size from the
     * diameter and the three global images only; per-page images and masks
     * play no part.
     */
    method UpdateMeasuredIndicatorSizes()
      modifies this`measuredIndicatorWidth, this`measuredIndicatorHeight
      ensures Size(measuredIndicatorWidth, measuredIndicatorHeight)
           == MeasuredSize(indicatorDiameter, pageIndicatorImage, currentPageIndicatorImage, pageIndicatorMaskImage)
      ensures CoversGlobals(Size(measuredIndicatorWidth, measuredIndicatorHeight), indicatorDiameter,
                            pageIndicatorImage, currentPageIndicatorImage, pageIndicatorMaskImage)
    {
      measuredIndicatorWidth := indicatorDiameter;
      measuredIndicatorHeight := indicatorDiameter;

      // Only images in use: the diameter does not count.
      if (pageIndicatorImage.Some? || pageIndicatorMaskImage.Some?) && currentPageIndicatorImage.Some? {
        measuredIndicatorWidth := 0.0;
        measuredIndicatorHeight := 0.0;
      }

      if pageIndicatorImage.Some? {
        UpdateMeasuredIndicatorSizeWithSize(pageIndicatorImage.value.Size());
      }
      if currentPageIndicatorImage.Some? {
        UpdateMeasuredIndicatorSizeWithSize(currentPageIndicatorImage.value.Size());
      }
      if pageIndicatorMaskImage.Some? {
        UpdateMeasuredIndicatorSizeWithSize(pageIndicatorMaskImage.value.Size());
      }
    }

    // -------------------------------------------------------------------
    // Global images

    /** Sets the global current-page image unless it is already that image; recomputes the measured size. */
    method SetCurrentPageIndicatorImage(image: Option<Image>)
      requires Valid()
      modifies this`currentPageIndicatorImage, this`measuredIndicatorWidth, this`measuredIndicatorHeight,
               this`needsDisplay
      ensures Valid()
      ensures currentPageIndicatorImage == image
      ensures old(currentPageIndicatorImage).Some? && old(currentPageIndicatorImage) == image ==>
        measuredIndicatorWidth == old(measuredIndicatorWidth) &&
        measuredIndicatorHeight == old(measuredIndicatorHeight) && needsDisplay == old(needsDisplay)
      ensures !(old(currentPageIndicatorImage).Some? && old(currentPageIndicatorImage) == image) ==>
        needsDisplay &&
        Size(measuredIndicatorWidth, measuredIndicatorHeight)
          == MeasuredSize(indicatorDiameter, pageIndicatorImage, image, pageIndicatorMaskImage)
    {
      if currentPageIndicatorImage.Some? && currentPageIndicatorImage == image {
        return;
      }
      currentPageIndicatorImage := image;
      UpdateMeasuredIndicatorSizes();
      needsDisplay := true;
    }

    /** Sets the global normal image unless it is already that image; recomputes the measured size. */
    method SetPageIndicatorImage(image: Option<Image>)
      requires Valid()
      modifies this`pageIndicatorImage, this`measuredIndicatorWidth, this`measuredIndicatorHeight,
               this`needsDisplay
      ensures Valid()
      ensures pageIndicatorImage == image
      ensures old(pageIndicatorImage).Some? && old(pageIndicatorImage) == image ==>
        measuredIndicatorWidth == old(measuredIndicatorWidth) &&
        measuredIndicatorHeight == old(measuredIndicatorHeight) && needsDisplay == old(needsDisplay)
      ensures !(old(pageIndicatorImage).Some? && old(pageIndicatorImage) == image) ==>
        needsDisplay &&
        Size(measuredIndicatorWidth, measuredIndicatorHeight)
          == MeasuredSize(indicatorDiameter, image, currentPageIndicatorImage, pageIndicatorMaskImage)
    {
      if pageIndicatorImage.Some? && pageIndicatorImage == image {
        return;
      }
      pageIndicatorImage := image;
      UpdateMeasuredIndicatorSizes();
      needsDisplay := true;
    }

    /**
     * Sets the global mask image. Its guard compares the field with itself,
     * so once a mask is set every later call changes nothing. With no mask
     * set, an absent image makes CreateMaskForImage dereference null: the
     * call fails (`crashed`) and the state stays as it was.
     */
    method SetPageIndicatorMaskImage(image: Option<Image>) returns (crashed: bool)
      requires Valid()
      modifies this`pageIndicatorMaskImage, this`pageImageMask, this`measuredIndicatorWidth,
               this`measuredIndicatorHeight, this`needsDisplay
      ensures Valid()
      ensures crashed <==> old(pageIndicatorMaskImage).None? && image.None?
      ensures old(pageIndicatorMaskImage).Some? || image.None? ==>
        pageIndicatorMaskImage == old(pageIndicatorMaskImage) && pageImageMask == old(pageImageMask) &&
        measuredIndicatorWidth == old(measuredIndicatorWidth) &&
        measuredIndicatorHeight == old(measuredIndicatorHeight) && needsDisplay == old(needsDisplay)
      ensures old(pageIndicatorMaskImage).None? && image.Some? ==>
        pageIndicatorMaskImage == image && pageImageMask == Some(CreateMaskForImage(image.value)) &&
        needsDisplay &&
        Size(measuredIndicatorWidth, measuredIndicatorHeight)
          == MeasuredSize(indicatorDiameter, pageIndicatorImage, currentPageIndicatorImage, image)
    {
      if pageIndicatorMaskImage.Some? && pageIndicatorMaskImage == pageIndicatorMaskImage {
        return false;
      }
      pageIndicatorMaskImage := image;
      if pageIndicatorMaskImage.None? {
        return true;
      }
      pageImageMask := Some(CreateMaskForImage(pageIndicatorMaskImage.value));
      UpdateMeasuredIndicatorSizes();
      needsDisplay := true;
      return false;
    }

    // -------------------------------------------------------------------
    // Per-page images and masks

    /** The per-page table of the given image type. */
    function Table(imageType: ImageType): map<int, Image>
      reads this
    {
      match imageType
      case Normal => pageImages
      case Current => currentPageImages
      case MaskType => pageImageMasks
    }

    /**
     * The private SetImage: stores or removes the entry of `pageIndex` in
     * the table of `imageType`, and does nothing for an index outside the
     * pages. The other tables do not change.
     */
    method SetImageOfType(image: Option<Image>, pageIndex: int, imageType: ImageType)
      modifies this`pageImages, this`currentPageImages, this`pageImageMasks
      ensures pageImages == if imageType == Normal then Store(old(pageImages), numberOfPages, pageIndex, image)
                            else old(pageImages)
      ensures currentPageImages == if imageType == Current then Store(old(currentPageImages), numberOfPages, pageIndex, image)
                                   else old(currentPageImages)
      ensures pageImageMasks == if imageType == MaskType then Store(old(pageImageMasks), numberOfPages, pageIndex, image)
                                else old(pageImageMasks)
    {
      if pageIndex < 0 || pageIndex >= numberOfPages {
        return;
      }
      match imageType {
        case Current =>
          currentPageImages := if image.Some? then currentPageImages[pageIndex := image.value]
                               else currentPageImages - {pageIndex};
        case Normal =>
          pageImages := if image.Some? then pageImages[pageIndex := image.value] else pageImages - {pageIndex};
        case MaskType =>
          pageImageMasks := if image.Some? then pageImageMasks[pageIndex := image.value]
                            else pageImageMasks - {pageIndex};
      }
    }

    /**
     * Sets or clears the normal image of one page, then recomputes the
     * measured size, which per-page images do not affect.
     */
    method SetImage(image: Option<Image>, pageIndex: int)
      requires Valid()
      modifies this`pageImages, this`currentPageImages, this`pageImageMasks,
               this`measuredIndicatorWidth, this`measuredIndicatorHeight
      ensures Valid()
      ensures currentPageImages == old(currentPageImages) && pageImageMasks == old(pageImageMasks)
      ensures pageImages == Store(old(pageImages), numberOfPages, pageIndex, image)
      ensures ImageForPage(pageIndex) == if 0 <= pageIndex < numberOfPages then image else None
      ensures forall k :: k != pageIndex ==> ImageForPage(k) == old(ImageForPage(k))
      ensures Size(measuredIndicatorWidth, measuredIndicatorHeight)
           == MeasuredSize(indicatorDiameter, pageIndicatorImage, currentPageIndicatorImage, pageIndicatorMaskImage)
    {
      SetImageOfType(image, pageIndex, Normal);
      UpdateMeasuredIndicatorSizes();
    }

    /**
     * Sets or clears the current-page image of one page, then recomputes the
     * measured size, which per-page images do not affect.
     */
    method SetCurrentImage(image: Option<Image>, pageIndex: int)
      requires Valid()
      modifies this`pageImages, this`currentPageImages, this`pageImageMasks,
               this`measuredIndicatorWidth, this`measuredIndicatorHeight
      ensures Valid()
      ensures pageImages == old(pageImages) && pageImageMasks == old(pageImageMasks)
      ensures currentPageImages == Store(old(currentPageImages), numberOfPages, pageIndex, image)
      ensures CurrentImageForPage(pageIndex) == if 0 <= pageIndex < numberOfPages then image else None
      ensures forall k :: k != pageIndex ==> CurrentImageForPage(k) == old(CurrentImageForPage(k))
      ensures Size(measuredIndicatorWidth, measuredIndicatorHeight)
           == MeasuredSize(indicatorDiameter, pageIndicatorImage, currentPageIndicatorImage, pageIndicatorMaskImage)
    {
      SetImageOfType(image, pageIndex, Current);
      UpdateMeasuredIndicatorSizes();
    }

    /**
     * Sets or clears the mask image of one page. The mask table is
     * bounds-checked but the derived-mask table is not: for any index, an
     * absent image removes the derived mask, and a present one stores its
     * derived mask, widens the measured size to the image and requests a
     * redraw.
     */
    method SetImageMask(image: Option<Image>, pageIndex: int)
      requires Valid()
      modifies this`pageImages, this`currentPageImages, this`pageImageMasks, this`cgImageMasks,
               this`measuredIndicatorWidth, this`measuredIndicatorHeight, this`needsDisplay
      ensures Valid()
      ensures pageImages == old(pageImages) && currentPageImages == old(currentPageImages)
      ensures pageImageMasks == Store(old(pageImageMasks), numberOfPages, pageIndex, image)
      ensures image.None? ==>
        cgImageMasks == old(cgImageMasks) - {pageIndex} &&
        measuredIndicatorWidth == old(measuredIndicatorWidth) &&
        measuredIndicatorHeight == old(measuredIndicatorHeight) && needsDisplay == old(needsDisplay)
      ensures image.Some? ==>
        cgImageMasks == old(cgImageMasks)[pageIndex := CreateMaskForImage(image.value)] && needsDisplay &&
        Size(measuredIndicatorWidth, measuredIndicatorHeight)
          == GrowTo(old(Size(measuredIndicatorWidth, measuredIndicatorHeight)), image.value.Size())
    {
      SetImageOfType(image, pageIndex, MaskType);
      if image.None? {
        cgImageMasks := cgImageMasks - {pageIndex};
        return;
      }
      var maskImage := CreateMaskForImage(image.value);
      cgImageMasks := cgImageMasks[pageIndex := maskImage];
      UpdateMeasuredIndicatorSizeWithSize(image.value.Size());
      needsDisplay := true;
    }

    /**
     * The private ImageForPage: nothing for an index outside the pages,
     * otherwise the entry of the table of `imageType`, if any.
     */
    function ImageForPageOfType(pageIndex: int, imageType: ImageType): (r: Option<Image>)
      reads this
      ensures !(0 <= pageIndex < numberOfPages) ==> r == None
      ensures 0 <= pageIndex < numberOfPages ==>
        (r.Some? <==> pageIndex in Table(imageType)) &&
        (r.Some? ==> r.value == Table(imageType)[pageIndex])
    {
      Lookup(Table(imageType), numberOfPages, pageIndex)
    }

    function ImageForPage(pageIndex: int): Option<Image>
      reads this
    {
      ImageForPageOfType(pageIndex, Normal)
    }

    function CurrentImageForPage(pageIndex: int): Option<Image>
      reads this
    {
      ImageForPageOfType(pageIndex, Current)
    }

    function ImageMaskForPage(pageIndex: int): Option<Image>
      reads this
    {
      ImageForPageOfType(pageIndex, MaskType)
    }

    // -------------------------------------------------------------------
    // Accessibility

    /** Stores the name of one page (an absent name too); does nothing for an index outside the pages. */
    method SetName(name: Option<string>, pageIndex: int)
      requires Valid()
      modifies this`pageNames
      ensures Valid()
      ensures 0 <= pageIndex < numberOfPages ==> pageNames == old(pageNames)[pageIndex := name]
      ensures !(0 <= pageIndex < numberOfPages) ==> pageNames == old(pageNames)
      ensures NameForPage(pageIndex) == if 0 <= pageIndex < numberOfPages then name else None
      ensures forall k :: k != pageIndex ==> NameForPage(k) == old(NameForPage(k))
    {
      if pageIndex < 0 || pageIndex >= numberOfPages {
        return;
      }
      pageNames := pageNames[pageIndex := name];
    }

    /** The name of a page: nothing outside the pages or when none is stored. */
    function NameForPage(pageIndex: int): (name: Option<string>)
      reads this
      ensures !(0 <= pageIndex < numberOfPages) ==> name == None
      ensures 0 <= pageIndex < numberOfPages && pageIndex in pageNames ==> name == pageNames[pageIndex]
      ensures pageIndex !in pageNames ==> name == None
    {
      var stored := Lookup(pageNames, numberOfPages, pageIndex);
      if stored.Some? then stored.value else None
    }

    /** Composes the exposed accessibility value from the current page's name and the underlying value. */
    method UpdateAccessibilityValue()
      modifies this`accessibilityValue
      ensures accessibilityValue == Some(ComposeValue(NameForPage(currentPage), pageControlAccessibilityValue))
    {
      var pageName := NameForPage(currentPage);
      var underlying := pageControlAccessibilityValue;
      if pageName.Some? {
        accessibilityValue := Some(pageName.value + " - " + Text(underlying));
      } else if underlying.None? {
        accessibilityValue := Some("");
      } else {
        accessibilityValue := Some(underlying.value);
      }
    }
  }
}
