# SMPageControl in Dafny

A model of the core of `SMPageControl`, a Xamarin.iOS page-indicator widget
(a row of dots, one per page, with a highlighted current page). The model
covers the widget's own logic and leaves out UIKit:

- **Layout geometry** (module `Layout`): the row's footprint, horizontal and
  vertical alignment, the slot of each page, the size `SizeToFit` gives the
  frame, and the tap split. The layout formulas are pure functions over a
  `Metrics` snapshot of the control's fields. Coordinates are exact `real`s.
- **Page arithmetic** (module `Pages`): clamping a requested page, and the
  page/scroll-offset conversions of the scroll-view sync.
- **Images and measured size** (module `Images`): images and their derived
  masks, and the bounds-checked lookups and stores on the sparse per-page
  tables. It also holds the measured indicator size computed from the
  diameter and the global images.
- **Render pass** (module `Render`): the per-page precedence (per-page
  state image, global state image, per-page mask, global mask, ellipse) and
  the fill colours. The pass itself is a sequence of draw commands, with one
  `DrawImage`, `DrawMask` or `FillEllipse` per page. `Tiers` and
  `FirstPresent` give an independent reference definition of the
  precedence, and lemmas tie each rendered command to its tier, its slot and
  its size.
- **Accessibility** (module `Accessibility`): the composed accessibility value.
- **The widget** (module `PageControlWidget`, class `SMPageControl`): every
  field the source updates in place, and its setters as methods with
  `modifies` frames. Each method is proved against the functions above, and
  each public setter keeps the invariant `Valid()`. `RenderPages` is a loop proved equal to
  `Render.RenderPages` over the control's current state. A redraw request is
  the flag `needsDisplay`, and value-changed events are the counter
  `valueChangedEvents`.

Behaviour reproduced as the code has it:

- Left and Top alignment give 0, not the bounds' x or y.
- `SetPageIndicatorMaskImage` compares the field with itself. Once a global
  mask is set, every later call changes nothing.
- With no global mask set, `SetPageIndicatorMaskImage(null)` passes null to
  `CreateMaskForImage`. The model reports this as the `crashed` result.
- `SetImageMask` with an index outside the pages skips the table write. A
  non-null image still lands in the derived-mask table, grows the measured
  size and requests a redraw.
- Per-page images never contribute to the measured size.
- `SetNumberOfPages` does not re-clamp the current or displayed page.
  `UpdatePageNumberForScrollView` does not clamp either.
- The render loop does not reset its mask size between pages. Suppose an
  out-of-range `SetImageMask(image, k)` writes only the derived mask of
  page `k`, and a later `SetNumberOfPages` brings `k` into range. Page `k`
  is then drawn with that derived mask at the size left by an earlier page
  (`Render.RenderedSize`, with a concrete instance in
  `Render.StaleMaskSizeExample`).
- With no pages, clamping gives current page -1.
- `SetName` stores a null name rather than removing the entry.
- `SetImageMask` bounds-checks its write to the mask-image table but not its
  write to the derived-mask table. An out-of-range call therefore leaves a
  derived mask with no mask image under that index.

## Model

| member | source | states |
|---|---|---|
| Geometry.Floor | SMPageControl.cs:140-143 | the result is an integer `f` with `f <= v < f + 1` |
| Layout.SizeForNumberOfPages | SMPageControl.cs:324-330 | the footprint's height is the measured height, and a row of 0 pages has width 0 |
| Layout.FootprintIsRowWidth | SMPageControl.cs:324-330 | the closed formula `n*w + max(0, n-1)*margin` equals the row built one indicator at a time (first indicator `w`, each further one margin plus `w`) |
| Layout.LeftOffset | SMPageControl.cs:249-266 | Left gives 0; Center puts the footprint's midpoint on the bounds' midpoint; Right puts its end on the bounds' right edge |
| Layout.TopOffsetForHeight | SMPageControl.cs:268-278 | Top gives 0; Middle centres a visual of that height on the rect's vertical midpoint; Bottom puts its lower edge on the rect's lower edge |
| Layout.RectForPageIndicator | SMPageControl.cs:311-322 | an index outside the pages gives the empty rect; otherwise a square of side `measuredWidth` at y = 0 starting `LeftOffset + i*(measuredWidth + margin)` |
| Layout.SlotsAreEvenlySpaced | SMPageControl.cs:311-322 | consecutive slots are exactly one indicator plus one margin apart, and with a non-negative margin they do not overlap |
| Layout.FootprintSpansSlots | SMPageControl.cs:311-330 | the footprint starts where slot 0 starts and ends where the last slot ends |
| Layout.FitSize | SMPageControl.cs:422-429 | the fitted width is the footprint's width; the height is the larger of the measured height and 36 |
| Layout.TapTarget | SMPageControl.cs:498-513 | a tap asks for the current page minus one exactly when it lands left of the footprint's midpoint, and for plus one otherwise |
| Layout.CenteredTapSplitsAtBoundsMidpoint | SMPageControl.cs:498-513 | with centred alignment, taps split at the bounds' horizontal midpoint |
| Pages.ClampPage | SMPageControl.cs:575 | with pages, the result lies in range, keeps an in-range request and clamps out-of-range requests to the nearer end; with no pages it is `pages - 1` (-1 for 0 pages) |
| Pages.TapMovesAtMostOnePage | SMPageControl.cs:498-513 | from an in-range page, a tap leaves the page in range and moves it by at most one; it stays put exactly at the end the tap points past |
| Pages.PageForScrollOffset | SMPageControl.cs:431-435 | the page read from a scroll view is the one whose span `[page*width, (page+1)*width)` contains the offset |
| Pages.ContentOffsetForPage | SMPageControl.cs:437-442 | scrolling to a page keeps the scroll view's width |
| Pages.ScrollRoundTrip | SMPageControl.cs:431-442 | scrolling to a page and reading the page back gives that page |
| Images.Get | SMPageControl.cs:120-138 | the dictionary read returns a value exactly when the key is present, and then the stored value |
| Images.Lookup | SMPageControl.cs:388-405 | an index outside the pages reads nothing; otherwise the table's entry, if any |
| Images.Store | SMPageControl.cs:332-356 | an index outside the pages leaves the table alone; otherwise a present image is stored and an absent one removes the entry; no other key changes |
| Images.LookupAfterStore | SMPageControl.cs:332-356 | reading back after a store gives the stored value at that in-range page and the old entry everywhere else |
| Images.GrowTo | SMPageControl.cs:459-463 | the measured size never shrinks, covers the given size, and each dimension is one of the two inputs |
| Images.MeasuredSize | SMPageControl.cs:465-491 | the measured size computed from the diameter and the global images, in the order UpdateMeasuredIndicatorSizes applies them (normal, current, mask), covers every global image and mask that is set, and the diameter unless only images are in use |
| Images.MeasuredSizeIsAttained | SMPageControl.cs:465-491 | each dimension of the measured size is its start value (the diameter, or 0 when only images are in use) or a dimension of a global image or mask that is set |
| Images.MeasuredSizeWithoutImages | SMPageControl.cs:465-491 | with no global images the measured size is the diameter in both dimensions |
| Render.ResolveFollowsTiers | SMPageControl.cs:163-198 | the loop body's null-check cascade draws from the first present tier: per-page state image, global state image, per-page mask, global mask, ellipse |
| Render.DrawPlacement | SMPageControl.cs:200-221 | every command carries its fill, is centred in its slot by `floor((measuredWidth - w)/2)` and is placed vertically by its own height |
| Render.FillColor | SMPageControl.cs:165-178 | the displayed page is filled with the current tint, White when none is set; every other page with the page tint, 30%-alpha White when none is set |
| Render.StateImage | SMPageControl.cs:165-182 | a page's finished image is its per-page image for its state when one is stored, otherwise the global image for its state |
| Render.Resolve | SMPageControl.cs:183-198 | the loop body draws an image exactly when the page has a finished image, and then passes the mask size on unchanged; otherwise the per-page derived mask, else the global one, at the carried size; the ellipse exactly when none of these is present; the carried size becomes the page's mask image size or the global mask image size, or stays |
| Render.PagesFrom | SMPageControl.cs:161-226 | the loop from page `i` issues one command per remaining page |
| Render.PagesFromAt | SMPageControl.cs:161-226 | command `k - i` of the loop from page `i` draws page `k`, `k - i` strides along, with the mask size carried from the earlier pages |
| Render.RenderPages | SMPageControl.cs:145-227 | nothing is drawn when fewer than two pages and HidesForSinglePage; otherwise exactly one command per page |
| Render.RenderedPageSource | SMPageControl.cs:163-198 | command `k` draws page `k` from its first present precedence tier, with the fill colour of its state (current exactly when `k` is the displayed page) |
| Render.RenderedPagePlacement | SMPageControl.cs:200-225 | command `k` is centred in the slot RectForPageIndicator reserves for page `k`, and placed vertically inside the rect by its own height |
| Render.SlotReached | SMPageControl.cs:224 | advancing `xOffset` by one stride per page reaches page `k`'s slot exactly where RectForPageIndicator puts it |
| Render.StaleMaskSizeExample | SMPageControl.cs:159-198 | on a two-page example, page 1, with a derived mask but no mask image, is drawn at page 0's mask image size, not its own source's size |
| Render.RenderedSize | SMPageControl.cs:185-220 | an image is drawn at its own size and the ellipse at the diameter; a per-page mask is drawn at its mask image's size and the global mask at the global mask image's size when those are set; a per-page mask without a mask image is drawn at the mask size the pass carried from the earlier pages (`MaskSizeAt`) |
| Accessibility.ComposeValue | SMPageControl.cs:663-679 | a named page gives name, `" - "`, then the underlying value (empty when null); an unnamed page passes the underlying value through, or gives `""` |
| Accessibility.NamedPageExample | SMPageControl.cs:663-679 | the composition on a concrete named and unnamed page |
| PageControlWidget.SMPageControl.constructor | SMPageControl.cs:70-94 | the defaults: no pages, diameter and measured size 6, margin 10, centred in both directions, empty tables |
| PageControlWidget.SMPageControl.RenderPages | SMPageControl.cs:145-227 | the loop's commands are exactly the render pass of the current state |
| PageControlWidget.SMPageControl.PageFillAndImage | SMPageControl.cs:163-181 | the fill colour and finished image of a page are those of its state |
| PageControlWidget.SMPageControl.PageMask | SMPageControl.cs:183-198 | the masking fallback returns the mask the precedence selects and passes on the mask size the pass carries |
| PageControlWidget.SMPageControl.DrawPage | SMPageControl.cs:200-221 | the command drawn is the image, else the mask at the carried size, else the ellipse, placed in the slot |
| PageControlWidget.SMPageControl.UpdateCurrentPageDisplay | SMPageControl.cs:305-309 | the displayed page becomes the current page and a redraw is requested |
| PageControlWidget.SMPageControl.SetCurrentPage | SMPageControl.cs:573-590 | the current page is clamped; the displayed page follows, with a redraw, exactly when deferral does not apply; one event is sent exactly when asked; the accessibility value is recomposed |
| PageControlWidget.SMPageControl.AssignCurrentPage | SMPageControl.cs:568-571 | the clamped page is set and displayed at once, with no event |
| PageControlWidget.SMPageControl.TouchesEnded | SMPageControl.cs:498-513 | the new page is the clamped tap target; the display follows, with a redraw, unless deferral is on; exactly one event is sent; the accessibility value is recomposed |
| PageControlWidget.SMPageControl.SetNumberOfPages | SMPageControl.cs:553-566 | the same count changes nothing; otherwise the count becomes `max(0, n)` without re-clamping the pages, with a redraw and a recomposed accessibility value |
| PageControlWidget.SMPageControl.UpdatePageNumberForScrollView | SMPageControl.cs:431-435 | the current page becomes the unclamped page whose span contains the scroll offset |
| PageControlWidget.SMPageControl.SetScrollViewContentOffsetForCurrentPage | SMPageControl.cs:437-442 | the offset becomes `width * currentPage`, and reading the page back from it gives the current page |
| PageControlWidget.SMPageControl.SizeToFit | SMPageControl.cs:422-429 | the frame keeps its origin and takes the fitted size, with a redraw |
| PageControlWidget.SMPageControl.SetIndicatorDiameter | SMPageControl.cs:530-540 | the same diameter changes nothing else; a new one recomputes the measured size and requests a redraw |
| PageControlWidget.SMPageControl.SetIndicatorMargin | SMPageControl.cs:542-551 | the margin is set, with a redraw exactly when it changes |
| PageControlWidget.SMPageControl.UpdateMeasuredIndicatorSizeWithSize | SMPageControl.cs:459-463 | the measured size grows to cover the given size |
| PageControlWidget.SMPageControl.UpdateMeasuredIndicatorSizes | SMPageControl.cs:465-491 | the measured size becomes the one computed from the diameter and the global images only, and covers them |
| PageControlWidget.SMPageControl.SetCurrentPageIndicatorImage | SMPageControl.cs:592-602 | the same present image changes nothing else; otherwise the image is set, the measured size recomputed and a redraw requested |
| PageControlWidget.SMPageControl.SetPageIndicatorImage | SMPageControl.cs:604-614 | the same present image changes nothing else; otherwise the image is set, the measured size recomputed and a redraw requested |
| PageControlWidget.SMPageControl.SetPageIndicatorMaskImage | SMPageControl.cs:616-635 | once a mask is set nothing changes; with none set, a null image fails (`crashed`) and a present one sets the mask, its derived mask and the measured size, with a redraw |
| PageControlWidget.SMPageControl.SetImageOfType | SMPageControl.cs:332-356 | only the table of the given type changes, by a bounds-checked store |
| PageControlWidget.SMPageControl.SetImage | SMPageControl.cs:358-362 | the normal-image table takes the store; a later ImageForPage gives the image in range and nothing outside; no other page or table changes; the measured size ignores per-page images |
| PageControlWidget.SMPageControl.SetCurrentImage | SMPageControl.cs:364-368 | the current-image table takes the store; a later CurrentImageForPage gives the image in range; no other page or table changes |
| PageControlWidget.SMPageControl.SetImageMask | SMPageControl.cs:370-386 | the mask table takes a bounds-checked store, but the derived-mask table is written for any index; a present image grows the measured size and requests a redraw |
| PageControlWidget.SMPageControl.ImageForPageOfType | SMPageControl.cs:388-405 | nothing for an index outside the pages; otherwise the entry of the table of that type, if any |
| PageControlWidget.SMPageControl.SetName | SMPageControl.cs:640-648 | an in-range index stores the name (null too); outside the pages nothing changes; no other page's name changes |
| PageControlWidget.SMPageControl.NameForPage | SMPageControl.cs:650-661 | nothing for an index outside the pages or without an entry; otherwise the stored name |
| PageControlWidget.SMPageControl.UpdateAccessibilityValue | SMPageControl.cs:663-679 | the exposed value becomes the composition of the current page's name and the underlying control's value |

## Left out

- Drawing through CoreGraphics and UIKit (`image.Draw`, `context.DrawImage`, `FillEllipseInRect`, `SetFill`) is foreign code. A render pass returns the sequence of draw commands instead.
- `CreateMaskForImage` renders pixels in a bitmap context. It becomes an abstract mask that records its source image; pixels and the screen scale are not modelled, and the mask is never null.
- The constructors, `Initialize`'s view setup and the `Frame` override are host plumbing. Only the default values are modelled, in the constructor. The bounds are the frame's size at the origin.
- The internal `UIPageControl` is a foreign object. Its accessibility value is an input field, `pageControlAccessibilityValue`. The assignments to its `Pages` (including the stale count at line 561) and to its `CurrentPage` are not modelled.
- `SetNeedsDisplay` and `SendActionForControlEvents` are host scheduling and event delivery. They become the `needsDisplay` flag and the `valueChangedEvents` counter.
- `nfloat` arithmetic and its rounding become exact `real` arithmetic. `UIColor` values become the tokens `White`, `WhiteAlpha30` and `Custom`.
- `UIImage.Equals` becomes value equality of the `Image` datatype (identity and size).
- The touch set of `TouchesEnded` becomes the x coordinate of the touch in the view.
- C# `int` arithmetic wraps at 32 bits; the model's `int` is unbounded. It does not model the wrap of `currentPage+1` and `currentPage-1` in `TouchesEnded` (lines 507 and 511) at `int.MaxValue` and `int.MinValue`, nor of `pageCount - 1` in `SizeForNumberOfPages` (line 326) at `int.MinValue`. Those values are reachable only through the unclamped scroll sync or a caller passing them.
- The `animated` flag of `SetScrollViewContentOffsetForCurrentPage` affects only the animation and is ignored. The scroll view is a value (offset and width) and the method returns it scrolled.
- PageControlWidget.SMPageControl.UpdatePageNumberForScrollView: requires a positive scroll-view width, because a width of 0 divides by zero in floating point. It also does not model the overflow of the `(int)` cast for huge offsets.
- `HidesForSinglePage`, `DefersCurrentPageDisplay` and the two tint colours are public fields that callers assign directly; the model has no method for that assignment. `alignment` and `verticalAlignment` are private and never assigned after `Initialize`, so they stay Center and Middle.
- `ImageForPage`, `CurrentImageForPage` and `ImageMaskForPage` are modelled as one-line functions over `ImageForPageOfType`, which carries the contract.
