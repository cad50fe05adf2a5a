/**
 * The card rectangle: millimetre sizes converted to points, and the content
 * rectangle inset by the top/bottom padding (src/card/CardDimensions.py).
 */
module CardDimensions {

  /** Points per millimetre, as the source rounds it. */
  const MM_TO_PT: real := 2.834

  /** A resolved rectangle: x, y of the lower-left corner, width, height (points). */
  datatype Rectangle = Rectangle(x: real, y: real, width: real, height: real)

  /** The card's rectangle in points together with its content band. */
  datatype CardDims = CardDims(x: real, y: real, width: real, height: real,
                               contentY: real, contentHeight: real)

  /**
   * CardDimensions.__init__: the position is taken as given (points), the
   * sizes are millimetres and are converted once.
   */
  function FromMillimetres(x: real, y: real, cardWidth: real, cardHeight: real, padding: real): (d: CardDims)
    ensures d.x == x && d.y == y
    ensures d.width / MM_TO_PT == cardWidth && d.height / MM_TO_PT == cardHeight
    ensures d.contentY - d.y == padding * MM_TO_PT
    ensures (d.y + d.height) - (d.contentY + d.contentHeight) == padding * MM_TO_PT
  {
    CardDims(x, y, cardWidth * MM_TO_PT, cardHeight * MM_TO_PT,
             y + padding * MM_TO_PT, (cardHeight - 2.0 * padding) * MM_TO_PT)
  }

  /** get_content_dimensions: the content band keeps the card's x and width. */
  function Content(d: CardDims): (r: Rectangle)
    ensures r.x == d.x && r.width == d.width
    ensures r.y == d.contentY && r.height == d.contentHeight
  {
    Rectangle(d.x, d.contentY, d.width, d.contentHeight)
  }

  /** The content rectangle is the card inset by the same amount at top and bottom. */
  lemma ContentIsSymmetricInset(x: real, y: real, cardWidth: real, cardHeight: real, padding: real)
    ensures var d := FromMillimetres(x, y, cardWidth, cardHeight, padding);
            var c := Content(d);
            && c.y - d.y == (d.y + d.height) - (c.y + c.height)
            && c.x == d.x && c.x + c.width == d.x + d.width
            && (padding >= 0.0 && cardHeight >= 2.0 * padding ==> d.y <= c.y && c.y + c.height <= d.y + d.height)
  {
  }
}
