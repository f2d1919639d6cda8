/** Integer rectangles, sizes and points: the parts of `pygame.Rect` the widgets use. */
module Geometry {

  datatype Size = Size(w: int, h: int)

  datatype Point = Point(x: int, y: int)

  /** A `pygame.Rect`: top-left corner and extent. */
  datatype Rect = Rect(x: int, y: int, width: int, height: int) {

    function Right(): int {
      x + width
    }

    function Bottom(): int {
      y + height
    }

    function GetSize(): Size {
      Size(width, height)
    }

    /** `Rect.collidepoint`: half-open containment, so a rectangle with a
        non-positive extent contains no point. */
    predicate CollidePoint(p: Point) {
      x <= p.x < x + width && y <= p.y < y + height
    }
  }

  function Max(a: int, b: int): int {
    if a < b then b else a
  }

  function Min(a: int, b: int): int {
    if a < b then a else b
  }

  /** Each side of `a` clamped to the same side of `bound`: how an image is
      scaled to an offer and how rendered text is fitted or cropped to its rect. */
  function MinSize(a: Size, bound: Size): (r: Size)
    ensures r.w <= a.w && r.w <= bound.w && (r.w == a.w || r.w == bound.w)
    ensures r.h <= a.h && r.h <= bound.h && (r.h == a.h || r.h == bound.h)
  {
    Size(Min(a.w, bound.w), Min(a.h, bound.h))
  }
}
