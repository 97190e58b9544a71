/** Text metrics: the normalisation of a glyph bounding box into a
    `(width, height)` pair, as `get_text_size_for_pil` does it. */
module Metrics {
  import opened Wrappers

  /** A bounding box `(x1, y1, x2, y2)` as returned by the renderer's
      `getbbox`; `None` when the text has no visible ink. */
  type BBox = (int, int, int, int)

  /** `get_text_size_for_pil`: `(0, 0)` for a missing box, otherwise the
      box's extent along each axis. */
  function TextSize(bbox: Option<BBox>): (size: (int, int))
    ensures bbox.None? ==> size == (0, 0)
    ensures bbox.Some? ==> bbox.value.0 + size.0 == bbox.value.2
    ensures bbox.Some? ==> bbox.value.1 + size.1 == bbox.value.3
  {
    match bbox
    case None => (0, 0)
    case Some((x1, y1, x2, y2)) => (x2 - x1, y2 - y1)
  }

  /** The box of the given size whose top-left corner is `(x, y)`. */
  function BoxAt(x: int, y: int, size: (int, int)): BBox {
    (x, y, x + size.0, y + size.1)
  }

  /** A well-formed box (what the renderer produces) has non-negative extent. */
  predicate WellFormedBox(b: BBox) {
    b.0 <= b.2 && b.1 <= b.3
  }

  /** The size of a box and its top-left corner determine the box again. */
  lemma BoxFromSize(b: BBox)
    ensures BoxAt(b.0, b.1, TextSize(Some(b))) == b
  {
  }

  /** Placing a size anywhere and measuring it gives that size back. */
  lemma SizeOfPlacedBox(x: int, y: int, size: (int, int))
    ensures TextSize(Some(BoxAt(x, y, size))) == size
  {
  }

  /** The measured size does not depend on where the ink sits. */
  lemma SizeIsTranslationInvariant(b: BBox, dx: int, dy: int)
    ensures TextSize(Some((b.0 + dx, b.1 + dy, b.2 + dx, b.3 + dy))) == TextSize(Some(b))
  {
  }

  /** Sizes are never negative for a well-formed or missing box. */
  lemma SizeIsNonNegative(bbox: Option<BBox>)
    requires bbox.Some? ==> WellFormedBox(bbox.value)
    ensures TextSize(bbox).0 >= 0 && TextSize(bbox).1 >= 0
  {
  }
}
