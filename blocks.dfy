/**
 * The common block contract (src/blocks/Block.py). The four block variants
 * form a closed set, so a block is one class tagged with its variant and the
 * values the variant fixes when it is built.
 */
module Blocks {
  import opened Wrappers
  import opened Canvas

  /** Every block is built without a font argument and keeps the dataclass default. */
  const DEFAULT_FONT: string := "Helvetica"

  datatype BlockKind =
    | ImageKind(imgHeight: real, imgWidth: real, imgUrl: Option<string>, source: ImageSource)
    | MainKind
    | VehicleKind(boxHeight: real, fontSize: real)
    | QualificationsKind(sideLength: real)

  class Block {
    const kind: BlockKind
    const font: string
    /** dimensions.x: unresolved (None) until the card positions the block. */
    var x: Option<real>
    const y: real
    /** dimensions.width: unresolved (None) until intrinsic or distributed. */
    var width: Option<real>
    const height: real

    constructor (kind: BlockKind, x: Option<real>, y: real, width: Option<real>, height: real)
      ensures this.kind == kind && this.font == DEFAULT_FONT
      ensures this.x == x && this.y == y && this.width == width && this.height == height
    {
      this.kind := kind;
      this.font := DEFAULT_FONT;
      this.x := x;
      this.y := y;
      this.width := width;
      this.height := height;
    }

    /** right_edge: x + width once both are known, None before. */
    function RightEdge(): (r: Option<real>)
      reads this
      ensures r.Some? <==> x.Some? && width.Some?
      ensures r.Some? ==> r.value - x.value == width.value
    {
      if x.Some? && width.Some? then Some(x.value + width.value) else None
    }

    /**
     * get_width. The image block overrides it and answers its picture width,
     * which it also stored as its width when it was built.
     */
    function GetWidth(): (r: Option<real>)
      reads this
      ensures !kind.ImageKind? ==> r == width
      ensures kind.ImageKind? ==> r == Some(kind.imgWidth)
    {
      if kind.ImageKind? then Some(kind.imgWidth) else width
    }

    /** set_x: moves the block and changes nothing else. */
    method SetX(v: Option<real>)
      modifies this`x
      ensures x == v && width == old(width)
      ensures v.Some? && width.Some? ==> RightEdge() == Some(v.value + width.value)
    {
      x := v;
    }
  }
}
