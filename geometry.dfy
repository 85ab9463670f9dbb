/**
 * The CoreGraphics values the widget computes with. An `nfloat` coordinate
 * is an exact `real`, so no rounding takes place anywhere in the model.
 */
module Geometry {

  datatype Size = Size(width: real, height: real)

  datatype Rect = Rect(x: real, y: real, width: real, height: real)

  /** `new CGSize()`: both dimensions zero. */
  const ZeroSize := Size(0.0, 0.0)

  /** `new CGRect()`: origin and size zero. */
  const EmptyRect := Rect(0.0, 0.0, 0.0, 0.0)

  function MaxX(r: Rect): real { r.x + r.width }

  function MidX(r: Rect): real { r.x + r.width / 2.0 }

  function MaxY(r: Rect): real { r.y + r.height }

  function MidY(r: Rect): real { r.y + r.height / 2.0 }

  /** `Math.Max` on two `nfloat` values: the larger of the two. */
  function Max(a: real, b: real): (m: real)
    ensures a <= m && b <= m
    ensures m == a || m == b
  {
    if a < b then b else a
  }

  /** The `int` overload of `Math.Max`, used for page counts and page numbers. */
  function IntMax(a: int, b: int): (m: int)
    ensures a <= m && b <= m
    ensures m == a || m == b
  {
    if a < b then b else a
  }

  /** The `int` overload of `Math.Min`, used to clamp page numbers. */
  function IntMin(a: int, b: int): (m: int)
    ensures m <= a && m <= b
    ensures m == a || m == b
  {
    if a < b then a else b
  }

  /** `Math.Floor`: the greatest integral value that is not above `v`. */
  function Floor(v: real): (f: real)
    ensures f <= v < f + 1.0
    ensures f == f.Floor as real
  {
    v.Floor as real
  }
}
