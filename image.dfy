/** pygame_widgets/image.py without aspect-ratio preservation: an image leaf that
    shrinks its surface to fit the offer. Pixels are not modelled; a surface is
    its size. */
module Image {
  import opened Wrappers
  import opened Geometry
  import opened Widget

  datatype ImageFilter = Nearest | Linear

  /** The image's size after a size pass with `offer`: unchanged when it fits on
      both axes, otherwise clamped per axis. A negative target cannot be scaled
      to (pygame raises `ValueError`). */
  function ScaledSize(image: Size, offer: Size): (r: Result<Size>)
    ensures r.Failure? ==> r.error == ValueError
    ensures r.Success? ==> r.value.w <= image.w && r.value.h <= image.h
  {
    if image.w > offer.w || image.h > offer.h then
      var target := MinSize(image, offer);
      if target.w < 0 || target.h < 0 then Failure(ValueError) else Success(target)
    else Success(image)
  }

  /** A fitting image keeps its size; otherwise the result fits the offer and
      never exceeds the image. */
  lemma ScaledSizeFits(image: Size, offer: Size)
    ensures image.w <= offer.w && image.h <= offer.h ==> ScaledSize(image, offer) == Success(image)
    ensures ScaledSize(image, offer).Success? ==>
      var r := ScaledSize(image, offer).value;
      r.w <= image.w && r.h <= image.h && (r == image || (r.w <= offer.w && r.h <= offer.h))
    ensures ScaledSize(image, offer).Failure? <==>
      (image.w > offer.w || image.h > offer.h) && (MinSize(image, offer).w < 0 || MinSize(image, offer).h < 0)
  {
  }

  /** Repeating a size pass with the same offer changes nothing more. */
  lemma ScaledSizeIdempotent(image: Size, offer: Size)
    requires ScaledSize(image, offer).Success?
    ensures ScaledSize(ScaledSize(image, offer).value, offer) == ScaledSize(image, offer)
  {
  }

  class Image {
    const node: Widget
    var image: Size
    const filter: ImageFilter

    constructor (id: WidgetId, image: Size, filter: ImageFilter, rect: Option<Rect>)
      ensures fresh(node) && !node.isContainer && this.image == image && this.filter == filter
      ensures node.GetFlags() == Flags(true, true, true)
      ensures forall s :: node.sizing(s) == MinSize(image, s)
      ensures node.clearsRecalculate && node.clearsRedraw
    {
      node := new Widget(id, rect, s => MinSize(image, s), true, true);
      this.image, this.filter := image, filter;
    }

    /** `Image.calculate_size`: the surface is replaced by its scaled copy when it
        does not fit (either filter gives the same size), and the rect takes the
        surface's size. */
    method CalculateSize(maxWidth: int, maxHeight: int) returns (r: Result<Size>)
      modifies this`image, node`needsRecalculate, node`width, node`height
      ensures r == ScaledSize(old(image), Size(maxWidth, maxHeight))
      ensures r.Success? ==> image == r.value && node.GetRect().GetSize() == image
      ensures r.Failure? ==> image == old(image) && node.GetRect() == old(node.GetRect())
      ensures !node.needsRecalculate
    {
      node.CalculateSize(maxWidth, maxHeight);
      if image.w > maxWidth || image.h > maxHeight {
        var newSize := MinSize(image, Size(maxWidth, maxHeight));
        if newSize.w < 0 || newSize.h < 0 {
          return Failure(ValueError);
        }
        image := newSize;
      }
      node.width, node.height := image.w, image.h;
      r := Success(image);
    }
  }

  /** The stored image never grows: over any two size passes its size only
      shrinks or stays. */
  method NeverGrows(img: Image, first: Size, second: Size) returns (sizes: seq<Size>)
    modifies img, img.node
    ensures |sizes| == 3 && sizes[0] == old(img.image)
    ensures sizes[1].w <= sizes[0].w && sizes[1].h <= sizes[0].h
    ensures sizes[2].w <= sizes[1].w && sizes[2].h <= sizes[1].h
  {
    var start := img.image;
    ScaledSizeFits(start, first);
    var _ := img.CalculateSize(first.w, first.h);
    var middle := img.image;
    ScaledSizeFits(middle, second);
    var _ := img.CalculateSize(second.w, second.h);
    sizes := [start, middle, img.image];
  }
}
