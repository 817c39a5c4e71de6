/**
 * Character-grid sizing: the automatic grid width of each conversion mode,
 * the grid height that keeps the image's aspect ratio, and the canvas size.
 */
module Sizing {
  import opened Wrappers
  import opened Arith

  /** Which converter runs: Latin glyphs, or the Chinese-glyph twin. */
  datatype Mode = Ascii | Chinese

  /** Grid width chosen when the command gave none. */
  function AutoWidth(mode: Mode, imageWidth: nat): (w: nat)
    ensures mode == Ascii ==> 100 <= w <= 300
    ensures mode == Chinese ==> 50 <= w <= 150
  {
    match mode
    case Ascii => Max(100, Min(imageWidth / 6, 300))
    case Chinese => Max(50, Min(imageWidth / 10, 150))
  }

  /** Grid width: an explicit width unchanged, otherwise the mode's automatic width. */
  function GridWidth(mode: Mode, width: Option<int>, imageWidth: nat): (w: int)
    ensures width.Some? ==> w == width.value
    ensures width.None? ==> w == AutoWidth(mode, imageWidth)
    ensures width.None? && mode == Ascii ==> 100 <= w <= 300
    ensures width.None? && mode == Chinese ==> 50 <= w <= 150
  {
    match width
    case Some(explicit) => explicit
    case None => AutoWidth(mode, imageWidth)
  }

  /** Grid height `int(image.height / image.width * grid_width)`, taken in exact arithmetic. */
  function GridHeight(imageWidth: nat, imageHeight: nat, gridWidth: nat): (h: nat)
    requires imageWidth > 0
    ensures h * imageWidth <= imageHeight * gridWidth < (h + 1) * imageWidth
  {
    var p := imageHeight * gridWidth;
    assert p == (p / imageWidth) * imageWidth + p % imageWidth;
    p / imageWidth
  }

  /**
   * The automatic width follows the image: it never decreases as the image
   * gets wider and, between the clamps, it is the image width over the
   * mode's divisor (6 for Latin glyphs, 10 for Chinese glyphs).
   */
  lemma AutoWidthFollowsImage(mode: Mode, a: nat, b: nat)
    requires a <= b
    ensures AutoWidth(mode, a) <= AutoWidth(mode, b)
    ensures mode == Ascii && 600 <= a < 1806 ==> AutoWidth(mode, a) == a / 6
    ensures mode == Chinese && 500 <= a < 1510 ==> AutoWidth(mode, a) == a / 10
  {
  }

  /** The grid keeps the image's proportions: a square image gives a square grid, a landscape one a flatter grid. */
  lemma GridHeightKeepsAspect(imageWidth: nat, imageHeight: nat, gridWidth: nat)
    requires imageWidth > 0
    ensures imageHeight == imageWidth ==> GridHeight(imageWidth, imageHeight, gridWidth) == gridWidth
    ensures imageHeight <= imageWidth ==> GridHeight(imageWidth, imageHeight, gridWidth) <= gridWidth
    ensures imageHeight >= imageWidth ==> GridHeight(imageWidth, imageHeight, gridWidth) >= gridWidth
  {
    var h := GridHeight(imageWidth, imageHeight, gridWidth);
    if imageHeight <= imageWidth {
      MulLe(imageHeight, imageWidth, gridWidth);
      MulCancelLe(h, gridWidth, imageWidth);
    }
    if imageHeight >= imageWidth {
      MulLe(imageWidth, imageHeight, gridWidth);
      if h + 1 <= gridWidth {
        MulLe(h + 1, gridWidth, imageWidth);
      }
    }
  }
}
