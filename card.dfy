/**
 * A card (src/card/Card.py): four blocks side by side in the content
 * rectangle (photo, name and rank, vehicle instructions, badges), laid out
 * when the card is drawn, followed by the two border rectangles.
 */
module CardLayout {
  import opened Wrappers
  import opened Canvas
  import opened Persons
  import opened CardDimensions
  import opened Blocks
  import opened Layout
  import ImageBlocks
  import MainBlocks
  import VehicleBlocks
  import QualificationBlocks

  /** The outer card rectangle and the content rectangle, both stroked and not filled. */
  function Borders(d: CardDims, c: Rectangle): seq<Command>
  {
    [Rect(d.x, d.y, d.width, d.height, None), Rect(c.x, c.y, c.width, c.height, None)]
  }

  /**
   * A card ready to be drawn: whose it is, its rectangles, the set-up data
   * of the photo, vehicle and badge blocks, and each block's resolved
   * position `xs[i]` and width `ws[i]`.
   */
  datatype LaidOut = LaidOut(person: Person, dims: CardDims, content: Rectangle,
                             image: BlockKind, vehicle: BlockKind, badges: BlockKind,
                             xs: seq<real>, ws: seq<real>, metric: Metric)
  {
    predicate Ready()
    {
      |xs| == 4 && |ws| == 4 && image.ImageKind? && vehicle.VehicleKind? && badges.QualificationsKind?
    }
  }

  /** What block i emits when drawn (the block's own draw). */
  function BlockCommands(c: LaidOut, i: nat): Drawn
    requires c.Ready() && i < 4
  {
    var y, h := c.content.y, c.content.height;
    if i == 0 then
      ImageBlocks.Commands(c.xs[0], y, c.ws[0], h, c.image.imgHeight, c.image.imgWidth, c.image.imgUrl,
                           c.image.source, DEFAULT_FONT, c.person, c.metric)
    else if i == 1 then MainBlocks.Commands(c.xs[1], y, c.ws[1], h, c.person, DEFAULT_FONT, c.metric)
    else if i == 2 then
      Drawn(VehicleBlocks.Boxes(c.xs[2], y, c.ws[2], h, c.vehicle.boxHeight, c.vehicle.fontSize, DEFAULT_FONT,
                                c.person.instructions, |c.person.instructions|), None)
    else QualificationBlocks.Commands(c.xs[3], y, c.badges.sideLength, c.person)
  }

  /** The first n blocks drawn in order, stopping at the first that raises. */
  function BlocksUpTo(c: LaidOut, n: nat): Drawn
    requires c.Ready() && n <= 4
  {
    if n == 0 then Drawn([], None) else Then(BlocksUpTo(c, n - 1), BlockCommands(c, n - 1))
  }

  lemma {:induction false} BlocksKeepError(c: LaidOut, k: nat, n: nat)
    requires c.Ready() && k <= n <= 4 && BlocksUpTo(c, k).err.Some?
    ensures BlocksUpTo(c, n) == BlocksUpTo(c, k)
  {
    if n > k {
      BlocksKeepError(c, k, n - 1);
    }
  }

  /**
   * What drawing a laid-out card emits: the four blocks in their fixed
   * order, then the borders. The photo comes first; only the photo's
   * function label and the badges can fail, and a failure stops the card
   * there.
   */
  function CardCommands(c: LaidOut): (d: Drawn)
    requires c.Ready()
    ensures |d.cmds| >= 1
    ensures d.cmds[0] == Picture(c.image.source, c.xs[0], c.content.y + c.content.height - c.image.imgHeight,
                                 c.image.imgWidth, c.image.imgHeight, c.image.imgUrl.Some?)
    ensures d.err.None? <==>
      c.person.functionName.Some?
      && QualificationBlocks.Commands(c.xs[3], c.content.y, c.badges.sideLength, c.person).err.None?
    ensures d.err.Some? ==>
      d.err == Some(MissingFunction) || d.err == Some(NonPositiveSide) || d.err.value.MissingKey?
    ensures d.err.None? ==> |d.cmds| >= 2 && d.cmds[|d.cmds| - 2..] == Borders(c.dims, c.content)
  {
    BlocksUpToShape(c, 4);
    var blocks := BlocksUpTo(c, 4);
    var borders := Borders(c.dims, c.content);
    var d := Then(blocks, Drawn(borders, None));
    assert d.err.None? ==> d.cmds[|d.cmds| - 2..] == borders by {
      if d.err.None? {
        assert d.cmds == blocks.cmds + borders;
      }
    }
    d
  }

  /**
   * The card with the name block as written: the photo draws, then the name
   * block raises on the missing personnel_nr attribute, so the vehicle
   * boxes, the badges and the borders are never drawn. Only a person
   * without a function stops earlier, at the photo. What it does draw is
   * the start of what the corrected card draws.
   */
  lemma AsWrittenCardStopsAtNameBlock(c: LaidOut)
    requires c.Ready()
    ensures var photo := BlockCommands(c, 0);
      var names := MainBlocks.DrawAsWritten(c.xs[1], c.content.y, c.ws[1], c.content.height, c.person,
                                            DEFAULT_FONT, c.metric);
      var asWritten := Then(photo, names);
      && asWritten.err == (if c.person.functionName.Some? then Some(NoSuchAttribute("personnel_nr"))
                           else Some(MissingFunction))
      && asWritten.cmds == photo.cmds + (if c.person.functionName.Some? then names.cmds else [])
      && asWritten.cmds <= CardCommands(c).cmds
  {
    var photo := BlockCommands(c, 0);
    var names := MainBlocks.DrawAsWritten(c.xs[1], c.content.y, c.ws[1], c.content.height, c.person,
                                          DEFAULT_FONT, c.metric);
    var b2 := BlocksUpTo(c, 2).cmds;
    TwoBlocksStartCard(c);
    if c.person.functionName.Some? {
      var corrected := BlockCommands(c, 1).cmds;
      assert b2 == photo.cmds + corrected;
      PrefixOfAppend(photo.cmds, names.cmds, corrected);
      PrefixTransitive(photo.cmds + names.cmds, b2, CardCommands(c).cmds);
    } else {
      assert BlocksUpTo(c, 1).cmds <= b2;
      PrefixTransitive(photo.cmds, b2, CardCommands(c).cmds);
      assert photo.cmds + [] == photo.cmds;
    }
  }

  /** The first two blocks' trace is the start of the card's trace. */
  lemma TwoBlocksStartCard(c: LaidOut)
    requires c.Ready()
    ensures BlocksUpTo(c, 1) == BlockCommands(c, 0)
    ensures BlocksUpTo(c, 2) == Then(BlockCommands(c, 0), BlockCommands(c, 1))
    ensures BlocksUpTo(c, 2).cmds <= CardCommands(c).cmds
  {
    var b2, b3, b4 := BlocksUpTo(c, 2), BlocksUpTo(c, 3), BlocksUpTo(c, 4);
    assert b2.cmds <= b3.cmds && b3.cmds <= b4.cmds;
    PrefixTransitive(b2.cmds, b3.cmds, b4.cmds);
    assert CardCommands(c) == Then(b4, Drawn(Borders(c.dims, c.content), None));
    PrefixTransitive(b2.cmds, b4.cmds, CardCommands(c).cmds);
  }

  /**
   * The first n >= 1 blocks start with the photo's picture, raise only
   * where the photo or the badges raise, and the photo raises exactly when
   * the person has no function.
   */
  lemma {:induction false} BlocksUpToShape(c: LaidOut, n: nat)
    requires c.Ready() && 1 <= n <= 4
    ensures var d := BlocksUpTo(c, n);
      && |d.cmds| >= 1
      && d.cmds[0] == Picture(c.image.source, c.xs[0], c.content.y + c.content.height - c.image.imgHeight,
                              c.image.imgWidth, c.image.imgHeight, c.image.imgUrl.Some?)
      && (d.err.None? <==>
            c.person.functionName.Some?
            && (n == 4 ==> QualificationBlocks.Commands(c.xs[3], c.content.y, c.badges.sideLength, c.person).err.None?))
      && (d.err.Some? ==>
            d.err == Some(MissingFunction) || d.err == Some(NonPositiveSide) || d.err.value.MissingKey?)
  {
    var prev, cur := BlocksUpTo(c, n - 1), BlockCommands(c, n - 1);
    assert BlocksUpTo(c, n) == Then(prev, cur);
    if n == 1 {
      assert Then(prev, cur).cmds == [] + cur.cmds;
    } else {
      BlocksUpToShape(c, n - 1);
      if prev.err.None? {
        assert Then(prev, cur).cmds[0] == prev.cmds[0];
      }
    }
  }

  /** One block's draw, dispatched on its kind, appending what it emits to the canvas. */
  method DrawBlock(canvas: Surface, c: LaidOut, i: nat) returns (d: Drawn)
    requires c.Ready() && i < 4
    modifies canvas`trace
    ensures d == BlockCommands(c, i)
    ensures canvas.trace == old(canvas.trace) + d.cmds
  {
    var y, h := c.content.y, c.content.height;
    if i == 0 {
      d := ImageBlocks.Commands(c.xs[0], y, c.ws[0], h, c.image.imgHeight, c.image.imgWidth, c.image.imgUrl,
                                c.image.source, DEFAULT_FONT, c.person, c.metric);
    } else if i == 1 {
      d := MainBlocks.Draw(c.xs[1], y, c.ws[1], h, c.person, DEFAULT_FONT, c.metric);
    } else if i == 2 {
      var boxes := VehicleBlocks.Draw(c.xs[2], y, c.ws[2], h, c.vehicle.boxHeight, c.vehicle.fontSize, DEFAULT_FONT,
                                      c.person.instructions);
      d := Drawn(boxes, None);
    } else {
      d := QualificationBlocks.Draw(c.xs[3], y, c.badges.sideLength, c.person);
    }
    canvas.trace := canvas.trace + d.cmds;
  }

  /** Draws the blocks onto the canvas in order, stopping at the first that raises. */
  method DrawAllBlocks(canvas: Surface, c: LaidOut) returns (err: Option<Error>)
    requires c.Ready()
    modifies canvas`trace
    ensures canvas.trace == old(canvas.trace) + BlocksUpTo(c, 4).cmds
    ensures err == BlocksUpTo(c, 4).err
  {
    var i := 0;
    while i < 4
      invariant 0 <= i <= 4
      invariant canvas.trace == old(canvas.trace) + BlocksUpTo(c, i).cmds
      invariant BlocksUpTo(c, i).err.None?
    {
      ghost var sofar := BlocksUpTo(c, i);
      var d := DrawBlock(canvas, c, i);
      AppendInSteps(old(canvas.trace), sofar.cmds, d.cmds);
      i := i + 1;
      if d.err.Some? {
        BlocksKeepError(c, i, 4);
        return d.err;
      }
    }
    err := None;
  }

  /** Draws the blocks, then the borders when no block raised. */
  method DrawLaidOut(canvas: Surface, c: LaidOut) returns (err: Option<Error>)
    requires c.Ready()
    modifies canvas`trace
    ensures canvas.trace == old(canvas.trace) + CardCommands(c).cmds
    ensures err == CardCommands(c).err
  {
    err := DrawAllBlocks(canvas, c);
    if err.None? {
      canvas.trace := canvas.trace + Borders(c.dims, c.content);
      AppendInSteps(old(canvas.trace), BlocksUpTo(c, 4).cmds, Borders(c.dims, c.content));
    }
  }

  class Card {
    const canvas: Surface
    const person: Person
    const dims: CardDims
    const content: Rectangle
    /** Stored by the card but never handed to its blocks, which keep their default font. */
    const font: string
    const metric: Metric
    /** The blocks in drawing order: photo, name and rank, vehicles, badges. */
    const blocks: seq<Block>

    /** The fixed structure: four distinct blocks of the four kinds sharing the content band. */
    predicate Shape()
    {
      && |blocks| == 4
      && (forall i, j :: 0 <= i < 4 && 0 <= j < 4 && i != j ==> blocks[i] != blocks[j])
      && blocks[0].kind.ImageKind? && blocks[1].kind.MainKind?
      && blocks[2].kind.VehicleKind? && blocks[3].kind.QualificationsKind?
      && (forall i :: 0 <= i < 4 ==>
            blocks[i].y == content.y && blocks[i].height == content.height && blocks[i].font == DEFAULT_FONT)
      && content == Content(dims)
      && 2.0 * blocks[3].kind.sideLength == content.height
    }

    /** The structure plus the positions and widths fixed when the card is built. */
    predicate Valid()
      reads blocks
    {
      && Shape()
      && blocks[0].x == Some(content.x)
      && blocks[0].width == Some(blocks[0].kind.imgWidth)
      && blocks[3].width == Some(content.height)
    }

    /** get_width of every block, in order. */
    function Widths(): (ws: seq<Option<real>>)
      requires Shape()
      reads blocks
      ensures |ws| == 4 && forall i :: 0 <= i < 4 ==> ws[i] == blocks[i].GetWidth()
    {
      [blocks[0].GetWidth(), blocks[1].GetWidth(), blocks[2].GetWidth(), blocks[3].GetWidth()]
    }

    /** The x of every block, in order. */
    function Positions(): (xs: seq<Option<real>>)
      requires Shape()
      reads blocks
      ensures |xs| == 4 && forall i :: 0 <= i < 4 ==> xs[i] == blocks[i].x
    {
      [blocks[0].x, blocks[1].x, blocks[2].x, blocks[3].x]
    }

    predicate Placed()
      requires Shape()
      reads blocks
    {
      forall i :: 0 <= i < 4 ==> blocks[i].x.Some? && blocks[i].GetWidth().Some?
    }

    /** What drawing the placed card emits. */
    function Trace(): Drawn
      requires Shape() && Placed()
      reads blocks
    {
      CardCommands(LaidOut(person, dims, content, blocks[0].kind, blocks[2].kind, blocks[3].kind,
                           Values(Positions()), Values(Widths()), metric))
    }

    /**
     * __init__: the photo starts at the content's left edge with its
     * picture width, the name block has neither x nor width, the vehicle
     * block has its intrinsic width, and the badge block is a square of the
     * content height placed at the right end of the content.
     */
    constructor (canvas: Surface, person: Person, x: real, y: real, cardWidth: real, cardHeight: real,
                 padding: real, font: string, placeholderExists: bool, fetchOk: bool, metric: Metric)
      requires ImageBlocks.Setup(FromMillimetres(x, y, cardWidth, cardHeight, padding).contentHeight,
                                 person, placeholderExists, fetchOk).Success?
      requires |person.instructions| > 0
      ensures Valid()
      ensures this.canvas == canvas && this.person == person && this.font == font && this.metric == metric
      ensures dims == FromMillimetres(x, y, cardWidth, cardHeight, padding)
      ensures blocks[0].kind == ImageBlocks.Setup(content.height, person, placeholderExists, fetchOk).value
      ensures blocks[1].x.None? && blocks[1].width.None?
      ensures blocks[2].x.None? && blocks[2].width.Some?
      ensures VehicleBlocks.Setup(content.height, person.instructions, DEFAULT_FONT, metric)
              == Success((blocks[2].kind, blocks[2].width.value))
      ensures blocks[3].x == Some(content.x + dims.width - content.height)
      ensures FlexCount(Widths()) > 0
      ensures forall i :: 0 <= i < 4 ==> fresh(blocks[i])
    {
      var d := FromMillimetres(x, y, cardWidth, cardHeight, padding);
      var c := Content(d);
      var imageKind := ImageBlocks.Setup(c.height, person, placeholderExists, fetchOk).value;
      var image := new Block(imageKind, Some(c.x), c.y, Some(imageKind.imgWidth), c.height);
      var main := new Block(MainKind, None, c.y, None, c.height);
      var vehicleSetup := VehicleBlocks.Setup(c.height, person.instructions, DEFAULT_FONT, metric).value;
      var vehicle := new Block(vehicleSetup.0, None, c.y, Some(vehicleSetup.1), c.height);
      var side := QualificationBlocks.SideLength(c.height, c.height).value;
      var badges := new Block(QualificationsKind(side), Some(c.x + d.width - c.height), c.y, Some(c.height), c.height);
      this.canvas := canvas;
      this.person := person;
      this.dims := d;
      this.content := c;
      this.font := font;
      this.metric := metric;
      this.blocks := [image, main, vehicle, badges];
    }

    /** Builds a card, or reports the error the block constructors raise (the photo's first). */
    static method Create(canvas: Surface, person: Person, x: real, y: real, cardWidth: real, cardHeight: real,
                         padding: real, font: string, placeholderExists: bool, fetchOk: bool, metric: Metric)
      returns (r: Result<Card>)
      ensures var image := ImageBlocks.Setup(FromMillimetres(x, y, cardWidth, cardHeight, padding).contentHeight,
                                             person, placeholderExists, fetchOk);
        && (r.Failure? <==> image.Failure? || |person.instructions| == 0)
        && (r.Failure? ==> r.error == if image.Failure? then image.error else ZeroDivision)
      ensures r.Success? ==>
        fresh(r.value) && r.value.Valid() && r.value.person == person && r.value.canvas == canvas
        && FlexCount(r.value.Widths()) > 0
    {
      var image := ImageBlocks.Setup(FromMillimetres(x, y, cardWidth, cardHeight, padding).contentHeight,
                                     person, placeholderExists, fetchOk);
      if image.Failure? {
        return Failure(image.error);
      }
      if |person.instructions| == 0 {
        return Failure(ZeroDivision);
      }
      var card := new Card(canvas, person, x, y, cardWidth, cardHeight, padding, font, placeholderExists,
                           fetchOk, metric);
      return Success(card);
    }

    /** Block i + 1 starts at the right edge of block i. */
    predicate Linked(i: nat)
      requires Shape() && i < 3
      reads blocks
    {
      blocks[i + 1].x == blocks[i].RightEdge()
    }

    /**
     * draw: shares the free width among the blocks without one, checks
     * that every width is truthy, packs the blocks left to right from the
     * photo's x, draws them in order and then the borders.
     */
    method Draw() returns (err: Option<Error>)
      requires Valid()
      modifies canvas`trace, blocks
      ensures Valid()
      ensures Widths() == Resolve(old(Widths()), content.width)
      ensures err == Some(MissingWidth) <==> !AllTruthy(Widths())
      ensures !AllTruthy(Widths()) ==> canvas.trace == old(canvas.trace) && Positions() == old(Positions())
      ensures AllTruthy(Widths()) ==>
        && Placed()
        && (forall i :: 0 <= i < 3 ==> Linked(i))
        && Packed(content.x, Values(Positions()), Values(Widths()))
        && canvas.trace == old(canvas.trace) + Trace().cmds
        && err == Trace().err
      ensures AllTruthy(Widths()) && FlexCount(old(Widths())) > 0 ==>
        && blocks[3].RightEdge() == Some(content.x + content.width)
        && blocks[3].x == Some(content.x + dims.width - content.height)
    {
      var ok := LayOut();
      if !ok {
        return Some(MissingWidth);
      }
      err := DrawBlocks();
    }

    /**
     * The layout half of draw: the sharing step, the check that every
     * width is truthy, and, when it passes, the packing step.
     */
    method LayOut() returns (ok: bool)
      requires Valid()
      modifies blocks
      ensures Valid()
      ensures Widths() == Resolve(old(Widths()), content.width)
      ensures ok <==> AllTruthy(Widths())
      ensures !ok ==> Positions() == old(Positions())
      ensures ok ==>
        && Placed()
        && (forall i :: 0 <= i < 3 ==> Linked(i))
        && Packed(content.x, Values(Positions()), Values(Widths()))
      ensures ok && FlexCount(old(Widths())) > 0 ==>
        && blocks[3].RightEdge() == Some(content.x + content.width)
        && blocks[3].x == Some(content.x + dims.width - content.height)
    {
      ghost var before := Widths();
      ShareWidths();
      var resolved := Widths();
      if !AllTruthy(resolved) {
        return false;
      }
      Pack();
      ok := true;
      if FlexCount(before) > 0 {
        EndsAtContentEdge(before);
      }
    }

    /** Packed after the sharing step, the badge block ends at the content's right edge, where it was built. */
    lemma EndsAtContentEdge(before: seq<Option<real>>)
      requires Valid() && Placed() && Packed(content.x, Values(Positions()), Values(Widths()))
      requires |before| == 4 && FlexCount(before) > 0 && before[3] == Some(content.height)
      requires Widths() == Resolve(before, content.width)
      ensures blocks[3].RightEdge() == Some(content.x + content.width)
      ensures blocks[3].x == Some(content.x + dims.width - content.height)
    {
      var xs := Values(Positions());
      PackedCardEndsAtContentEdge(content.x, content.width, content.height, xs, before);
      assert content.width == dims.width;
      assert blocks[3].x == Some(xs[3]) && blocks[3].width == Some(content.height);
    }

    /** The sharing step of draw: each block without a width gets the same share of what is left. */
    method ShareWidths()
      requires Valid()
      modifies blocks
      ensures Valid()
      ensures Widths() == Resolve(old(Widths()), content.width)
      ensures Positions() == old(Positions())
    {
      var ws := Widths();
      var used := UsedWidth(ws);
      var missing := FlexCount(ws);
      var remaining := content.width - used;
      var i := 0;
      while i < 4
        invariant 0 <= i <= 4
        invariant Valid()
        invariant forall j :: 0 <= j < 4 ==> blocks[j].x == old(blocks[j].x)
        invariant forall j :: 0 <= j < 4 ==>
          blocks[j].GetWidth() == (if j < i then Resolve(ws, content.width)[j] else ws[j])
      {
        if blocks[i].GetWidth().None? {
          blocks[i].width := Some(remaining / missing as real);
        }
        i := i + 1;
      }
    }

    /** The packing step of draw: each block after the first starts at its left neighbour's right edge. */
    method Pack()
      requires Valid() && AllTruthy(Widths())
      modifies blocks
      ensures Valid() && Widths() == old(Widths())
      ensures Placed() && forall i :: 0 <= i < 3 ==> Linked(i)
      ensures Packed(content.x, Values(Positions()), Values(Widths()))
    {
      var k := 0;
      while k < 3
        invariant 0 <= k <= 3
        invariant Valid()
        invariant Widths() == old(Widths())
        invariant forall j :: 0 <= j < k ==> Linked(j)
        invariant forall j :: 0 <= j <= k ==> blocks[j].x.Some?
      {
        label Before:
        blocks[k + 1].SetX(blocks[k].RightEdge());
        forall j | 0 <= j < k
          ensures Linked(j)
        {
          assert old@Before(Linked(j));
          assert blocks[j + 1] != blocks[k + 1] && blocks[j] != blocks[k + 1];
        }
        k := k + 1;
      }
      forall i | 0 <= i < 3
        ensures Values(Positions())[i + 1] == Values(Positions())[i] + Values(Widths())[i]
      {
        assert Linked(i);
      }
    }

    /** The drawing step of draw: the blocks in order, then the borders, stopping where a block raises. */
    method DrawBlocks() returns (err: Option<Error>)
      requires Valid() && Placed()
      modifies canvas`trace
      ensures canvas.trace == old(canvas.trace) + Trace().cmds
      ensures err == Trace().err
    {
      err := DrawLaidOut(canvas, LaidOut(person, dims, content, blocks[0].kind, blocks[2].kind, blocks[3].kind,
                                         Values(Positions()), Values(Widths()), metric));
    }
  }

  /**
   * The widths the card's draw settles on add up to the content width, so
   * the packed blocks end exactly at the content's right edge, where the
   * badge block was placed when it was built.
   */
  lemma PackedCardEndsAtContentEdge(x0: real, contentWidth: real, side: real, xs: seq<real>, ws: seq<Option<real>>)
    requires |ws| == 4 && FlexCount(ws) > 0 && ws[3] == Some(side)
    requires Packed(x0, xs, Values(Resolve(ws, contentWidth)))
    ensures xs[3] + side == x0 + contentWidth
    ensures xs[3] == x0 + contentWidth - side
  {
    ResolvedWidthsFillContent(ws, contentWidth);
    TotalIsSumOfValues(Resolve(ws, contentWidth));
    PackedEnd(x0, xs, Values(Resolve(ws, contentWidth)));
  }
}
