/** src/pygame_widgets/utils.py: point collision against a rect and an
    optional mask. */
module LegacyUtils {
  import opened Wrappers
  import opened Geometry

  /** A `pygame.Mask`: its size and its bits. */
  datatype Mask = Mask(width: int, height: int, bits: (int, int) -> bool) {

    predicate Contains(x: int, y: int) {
      0 <= x < width && 0 <= y < height
    }

    /** `Mask.get_at`: reading outside the mask raises `IndexError`. */
    function GetAt(x: int, y: int): (r: Result<bool>)
      ensures r.Failure? <==> !Contains(x, y)
      ensures r.Failure? ==> r.error == IndexError
      ensures r.Success? ==> r.value == bits(x, y)
    {
      if Contains(x, y) then Success(bits(x, y)) else Failure(IndexError)
    }
  }

  /** `collide_point`: a point outside the rect misses without looking at the
      mask; inside, it hits when there is no mask, and otherwise when the mask
      bit at its offset from the rect's corner is set. */
  function CollidePoint(p: Point, rect: Rect, mask: Option<Mask>): (r: Result<bool>)
    ensures r == Success(true) ==> rect.CollidePoint(p)
    ensures r.Failure? ==> r.error == IndexError && rect.CollidePoint(p) && mask.Some?
  {
    if !rect.CollidePoint(p) then Success(false)
    else if mask.None? then Success(true)
    else mask.value.GetAt(p.x - rect.x, p.y - rect.y)
  }

  /** The mask is only read after the containment test, so the offset it is
      read at lies in `[0, width) x [0, height)` of the rect; a mask at least as
      large as the rect is therefore never read out of bounds, and the result is
      its bit there. Only a mask smaller than the rect can raise. */
  lemma CollidePointReadsInsideRect(p: Point, rect: Rect, mask: Option<Mask>)
    ensures !rect.CollidePoint(p) ==> CollidePoint(p, rect, mask) == Success(false)
    ensures rect.CollidePoint(p) && mask.None? ==> CollidePoint(p, rect, mask) == Success(true)
    ensures rect.CollidePoint(p) ==> 0 <= p.x - rect.x < rect.width && 0 <= p.y - rect.y < rect.height
    ensures mask.Some? && rect.width <= mask.value.width && rect.height <= mask.value.height ==>
      CollidePoint(p, rect, mask) == Success(rect.CollidePoint(p) && mask.value.bits(p.x - rect.x, p.y - rect.y))
    ensures CollidePoint(p, rect, mask).Failure? ==>
      && CollidePoint(p, rect, mask).error == IndexError && mask.Some? && rect.CollidePoint(p)
      && !mask.value.Contains(p.x - rect.x, p.y - rect.y)
  {
  }
}
