/**
 * Images, derived masks, the sparse per-page override tables and the
 * measured indicator size of SMPageControl.
 */
module Images {
  import opened Optional
  import opened Geometry

  /** A UIImage, known by an identity and its point size. */
  datatype Image = Image(id: nat, width: real, height: real) {
    function Size(): Size { Geometry.Size(width, height) }
  }

  /**
   * The single-channel CGImage that CreateMaskForImage renders from an
   * image's alpha; its pixels are not modelled, only which image it came from.
   */
  datatype Mask = AlphaMaskOf(source: Image)

  function CreateMaskForImage(image: Image): Mask
  {
    AlphaMaskOf(image)
  }

  /** The derived mask of an image that may be absent. */
  function MaskOf(image: Option<Image>): Option<Mask>
  {
    if image.Some? then Some(CreateMaskForImage(image.value)) else None
  }

  /** SMPageControlImageType: which per-page table an operation uses. */
  datatype ImageType = Normal | Current | MaskType

  /** GetImageFromDictionary: the entry under `key`, absent when there is none. */
  function Get<V>(table: map<int, V>, key: int): (r: Option<V>)
    ensures r.Some? <==> key in table
    ensures r.Some? ==> r.value == table[key]
  {
    if key in table then Some(table[key]) else None
  }

  /**
   * The bounds-checked lookup of ImageForPage and its variants: nothing for
   * an index outside the pages, otherwise the table's entry.
   */
  function Lookup<V>(table: map<int, V>, pages: int, index: int): (r: Option<V>)
    ensures !(0 <= index < pages) ==> r == None
    ensures 0 <= index < pages ==> r == Get(table, index)
  {
    if index < 0 || index >= pages then None else Get(table, index)
  }

  /**
   * The bounds-checked table update of SetImage: an index outside the pages
   * leaves the table alone; otherwise a present value is stored under the
   * index and an absent one removes its entry. No other key changes.
   */
  function Store<V>(table: map<int, V>, pages: int, index: int, value: Option<V>): (t: map<int, V>)
    ensures !(0 <= index < pages) ==> t == table
    ensures 0 <= index < pages ==> Get(t, index) == value
    ensures forall k :: k != index ==> Get(t, k) == Get(table, k)
  {
    if index < 0 || index >= pages then table
    else if value.Some? then table[index := value.value]
    else table - {index}
  }

  /** Reading a table back after a store: the stored value at that page, the old entry elsewhere. */
  lemma LookupAfterStore<V>(table: map<int, V>, pages: int, index: int, value: Option<V>, k: int)
    ensures Lookup(Store(table, pages, index, value), pages, k)
         == if k == index && 0 <= index < pages then value else Lookup(table, pages, k)
  {
  }

  /**
   * UpdateMeasuredIndicatorSizeWithSize: widen the measured size to cover
   * `size`; neither dimension shrinks, and each ends up as one of the two.
   */
  function GrowTo(measured: Size, size: Size): (r: Size)
    ensures measured.width <= r.width && size.width <= r.width
    ensures measured.height <= r.height && size.height <= r.height
    ensures r.width == measured.width || r.width == size.width
    ensures r.height == measured.height || r.height == size.height
  {
    Size(Max(measured.width, size.width), Max(measured.height, size.height))
  }

  /** Widening by an image that may be absent: nothing happens when it is. */
  function GrowToImage(measured: Size, image: Option<Image>): Size
  {
    if image.Some? then GrowTo(measured, image.value.Size()) else measured
  }

  /**
   * The size UpdateMeasuredIndicatorSizes starts from: the indicator
   * diameter, or nothing when only images are in use (a normal image or a
   * mask, and a current image).
   */
  function StartSize(diameter: real, normal: Option<Image>, current: Option<Image>, mask: Option<Image>): Size
  {
    if (normal.Some? || mask.Some?) && current.Some? then ZeroSize else Size(diameter, diameter)
  }

  /**
   * The measured indicator size that UpdateMeasuredIndicatorSizes computes
   * from the diameter and the three global images, in the order it applies
   * them: normal image, current image, mask image.
   */
  function MeasuredSize(diameter: real, normal: Option<Image>, current: Option<Image>, mask: Option<Image>): (s: Size)
    ensures CoversGlobals(s, diameter, normal, current, mask)
  {
    var start := StartSize(diameter, normal, current, mask);
    GrowToImage(GrowToImage(GrowToImage(start, normal), current), mask)
  }

  /**
   * `measured` is no smaller than any global image or mask that is set,
   * nor than the diameter unless only images are in use.
   */
  predicate CoversGlobals(measured: Size, diameter: real, normal: Option<Image>, current: Option<Image>, mask: Option<Image>)
  {
    (normal.Some? ==> normal.value.width <= measured.width && normal.value.height <= measured.height) &&
    (current.Some? ==> current.value.width <= measured.width && current.value.height <= measured.height) &&
    (mask.Some? ==> mask.value.width <= measured.width && mask.value.height <= measured.height) &&
    (!((normal.Some? || mask.Some?) && current.Some?) ==> diameter <= measured.width && diameter <= measured.height)
  }

  /**
   * Each dimension of the measured size is its starting value (the
   * diameter, or 0 when only images are in use) or the dimension of one of
   * the global images and masks that are set: it is the least size that
   * covers them.
   */
  lemma MeasuredSizeIsAttained(diameter: real, normal: Option<Image>, current: Option<Image>, mask: Option<Image>)
    ensures var s := MeasuredSize(diameter, normal, current, mask);
      (s.width == StartSize(diameter, normal, current, mask).width ||
       (normal.Some? && s.width == normal.value.width) ||
       (current.Some? && s.width == current.value.width) ||
       (mask.Some? && s.width == mask.value.width)) &&
      (s.height == StartSize(diameter, normal, current, mask).height ||
       (normal.Some? && s.height == normal.value.height) ||
       (current.Some? && s.height == current.value.height) ||
       (mask.Some? && s.height == mask.value.height))
  {
  }

  /** With no global image or mask, the measured size is the diameter in both dimensions. */
  lemma MeasuredSizeWithoutImages(diameter: real)
    ensures MeasuredSize(diameter, None, None, None) == Size(diameter, diameter)
  {
  }
}
