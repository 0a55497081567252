/**
 * The MediaBox update that pdf.go's `Crop` runs on every page: the box keeps its
 * upper-left corner and gets the requested width and height, so only the lower
 * y and the right x move. Coordinates are PDF user-space points with the origin
 * at the bottom left.
 */
module Crop {
  import opened Wrappers

  /** A rectangle's four coordinates: lower-left x and y, upper-right x and y. */
  datatype Box = Box(llx: real, lly: real, urx: real, ury: real)

  function Width(b: Box): real {
    b.urx - b.llx
  }

  function Height(b: Box): real {
    b.ury - b.lly
  }

  /** A non-degenerate rectangle. */
  predicate IsProper(b: Box) {
    b.llx < b.urx && b.lly < b.ury
  }

  /** `inner` lies within `outer`. */
  predicate Within(inner: Box, outer: Box) {
    outer.llx <= inner.llx && inner.urx <= outer.urx &&
    outer.lly <= inner.lly && inner.ury <= outer.ury
  }

  /** The box of the given size that shares its upper-left corner with `b`. */
  function CropTopLeft(b: Box, width: real, height: real): (r: Box)
    ensures r.llx == b.llx && r.ury == b.ury
    ensures Width(r) == width && Height(r) == height
  {
    Box(b.llx, b.ury - height, b.llx + width, b.ury)
  }

  /** Cropping again to the same size changes nothing. */
  lemma CropIdempotent(b: Box, width: real, height: real)
    ensures CropTopLeft(CropTopLeft(b, width, height), width, height) == CropTopLeft(b, width, height)
  {
  }

  /** A positive target gives a proper box, whatever the original was. */
  lemma CropIsProper(b: Box, width: real, height: real)
    ensures IsProper(CropTopLeft(b, width, height)) <==> 0.0 < width && 0.0 < height
  {
  }

  /** The crop stays inside the original box exactly when the target fits in it;
      a larger target is not refused but reaches past the original box. */
  lemma CropWithinIff(b: Box, width: real, height: real)
    ensures Within(CropTopLeft(b, width, height), b) <==>
            width <= Width(b) && height <= Height(b)
  {
  }

  /** US Letter (612 x 792 points) cropped to 432 x 648 keeps the top 648 points. */
  lemma CropLetterExample()
    ensures CropTopLeft(Box(0.0, 0.0, 612.0, 792.0), 432.0, 648.0) == Box(0.0, 144.0, 432.0, 792.0)
  {
  }

  // ------------------------------------------------------------ the page objects

  /** A PDF rectangle object, updated in place through its pointer. */
  class PdfRectangle {
    var llx: real
    var lly: real
    var urx: real
    var ury: real

    constructor (b: Box)
      ensures Value() == b
    {
      llx, lly, urx, ury := b.llx, b.lly, b.urx, b.ury;
    }

    function Value(): Box
      reads this
    {
      Box(llx, lly, urx, ury)
    }
  }

  /** The part of a PDF page the crop touches: its own MediaBox entry, if any. */
  class PdfPage {
    var mediaBox: PdfRectangle?

    constructor (box: PdfRectangle?)
      ensures mediaBox == box
    {
      mediaBox := box;
    }
  }

  datatype PageError = MediaBoxNotDefined

  /**
   * The page callback of `Crop`. The MediaBox rectangle is fetched, its lower y
   * and right x are overwritten in place, and it is stored back on the page.
   * A page without a MediaBox of its own is an error and is left untouched.
   */
  method CropPage(page: PdfPage, width: real, height: real) returns (err: Option<PageError>)
    modifies page, page.mediaBox
    ensures old(page.mediaBox) == null ==> err == Some(MediaBoxNotDefined) && page.mediaBox == null
    ensures old(page.mediaBox) != null ==>
              err == None && page.mediaBox == old(page.mediaBox) &&
              page.mediaBox.Value() == CropTopLeft(old(page.mediaBox.Value()), width, height)
  {
    var bbox := page.mediaBox;
    if bbox == null {
      return Some(MediaBoxNotDefined);
    }

    // Crop from the top-left corner: only the lower y and the right x change.
    bbox.lly := bbox.ury - height;
    bbox.urx := bbox.llx + width;

    page.mediaBox := bbox;
    return None;
  }
}
