/**
 * The photo column (src/blocks/ImageBlock.py): a picture on top of a strip
 * that holds the person's function, the picture's width fixed by its height
 * and the photo aspect ratio.
 */
module ImageBlocks {
  import opened Wrappers
  import opened Canvas
  import opened Persons
  import opened Blocks

  const ROLE_LABEL_PADDING: real := 1.0
  /** FontSize.function_label */
  const FUNCTION_LABEL_SIZE: real := 6.0
  const ROLE_LABEL_HEIGHT: real := 2.0 * ROLE_LABEL_PADDING + FUNCTION_LABEL_SIZE
  /** Pixel size of the photos the cards use: 550 wide, 732 high. */
  const ASPECT_RATIO: real := 550.0 / 732.0

  datatype Geometry = Geometry(imgHeight: Option<real>, imgWidth: Option<real>, width: Option<real>)

  /**
   * __post_init__: with a height, the picture takes all of it except the
   * label strip, its width follows from the aspect ratio and becomes the
   * block's width; without a height nothing is derived.
   */
  function PictureGeometry(height: Option<real>, width: Option<real>): (g: Geometry)
    ensures height.None? ==> g == Geometry(None, None, width)
    ensures height.Some? ==>
      && g.imgHeight.Some? && g.imgWidth.Some? && g.width == g.imgWidth
      && g.imgHeight.value + ROLE_LABEL_HEIGHT == height.value
      && g.imgWidth.value * 732.0 == g.imgHeight.value * 550.0
  {
    if height.None? then Geometry(None, None, width)
    else
      var imgHeight := height.value - ROLE_LABEL_HEIGHT;
      Geometry(Some(imgHeight), Some(imgHeight * ASPECT_RATIO), Some(imgHeight * ASPECT_RATIO))
  }

  /**
   * __get_image: the photo when the person has an image URL, which needs a
   * personnel id and a successful download; the placeholder otherwise, which
   * must exist. The file check and the download are given as outcomes.
   */
  function ResolveImage(person: Person, placeholderExists: bool, fetchOk: bool): (r: Result<ImageSource>)
    ensures Present(person.imageUrl) ==>
      r == (if person.personnelId.None? then Failure(NoPersonnelId)
            else if !fetchOk then Failure(FetchFailed)
            else Success(UrlImage(person.imageUrl.value)))
    ensures !Present(person.imageUrl) ==>
      r == (if placeholderExists then Success(Placeholder) else Failure(PlaceholderMissing))
  {
    if Present(person.imageUrl) then
      if person.personnelId.None? then Failure(NoPersonnelId)
      else if !fetchOk then Failure(FetchFailed)
      else Success(UrlImage(person.imageUrl.value))
    else if placeholderExists then Success(Placeholder)
    else Failure(PlaceholderMissing)
  }

  /** Builds the image block's variant data for a block of the given height. */
  function Setup(height: real, person: Person, placeholderExists: bool, fetchOk: bool): (r: Result<BlockKind>)
    ensures r.Failure? <==> ResolveImage(person, placeholderExists, fetchOk).Failure?
    ensures r.Failure? ==> r.error == ResolveImage(person, placeholderExists, fetchOk).error
    ensures r.Success? ==>
      && r.value.ImageKind?
      && r.value.imgHeight + ROLE_LABEL_HEIGHT == height
      && Some(r.value.imgWidth) == PictureGeometry(Some(height), None).imgWidth
      && r.value.source == ResolveImage(person, placeholderExists, fetchOk).value
      && (r.value.imgUrl.Some? <==> Present(person.imageUrl))
  {
    var g := PictureGeometry(Some(height), None);
    var url := if Present(person.imageUrl) then person.imageUrl else None;
    match ResolveImage(person, placeholderExists, fetchOk)
    case Failure(e) => Failure(e)
    case Success(source) => Success(ImageKind(g.imgHeight.value, g.imgWidth.value, url, source))
  }

  /**
   * draw: the picture, the function label, the two border lines. The
   * label's width comes from the rendering library, which cannot measure a
   * missing function: then only the picture is drawn.
   */
  function Commands(x: real, y: real, width: real, height: real, imgHeight: real, imgWidth: real,
                    imgUrl: Option<string>, source: ImageSource, font: string,
                    person: Person, metric: Metric): (d: Drawn)
    ensures |d.cmds| >= 1
    ensures d.cmds[0] == Picture(source, x, y + height - imgHeight, imgWidth, imgHeight, imgUrl.Some?)
    ensures d.cmds[0].y + d.cmds[0].h == y + height
    ensures d.err.Some? <==> person.functionName.None?
    ensures d.err.Some? ==> d == Drawn([d.cmds[0]], Some(MissingFunction))
    ensures d.err.None? ==> (
      var caption := person.functionName.value;
      var sw := metric(caption, font, FUNCTION_LABEL_SIZE);
      && |d.cmds| == 4
      && d.cmds[1].Text? && d.cmds[1].text == caption && d.cmds[1].size == FUNCTION_LABEL_SIZE
      && d.cmds[1].x - x == (x + imgWidth) - (d.cmds[1].x + sw)
      && d.cmds[1].y - y == d.cmds[0].y - (d.cmds[1].y + FUNCTION_LABEL_SIZE - 1.0)
      && (d.cmds[0].y - y >= FUNCTION_LABEL_SIZE + 1.0 ==> d.cmds[1].y + FUNCTION_LABEL_SIZE <= d.cmds[0].y)
      && d.cmds[2] == Line(x + width, y, x + width, y + height)
      && d.cmds[3] == Line(x, d.cmds[0].y, x + width, d.cmds[0].y))
  {
    var picture := Picture(source, x, y + (height - imgHeight), imgWidth, imgHeight, imgUrl.Some?);
    if person.functionName.None? then Drawn([picture], Some(MissingFunction))
    else
      var caption := person.functionName.value;
      var sw := metric(caption, font, FUNCTION_LABEL_SIZE);
      var rightEdge := x + width;
      Drawn([picture,
             Text(x + (imgWidth - sw) / 2.0, y + (height - imgHeight - FUNCTION_LABEL_SIZE + 1.0) / 2.0,
                  caption, font, FUNCTION_LABEL_SIZE, Black),
             Line(rightEdge, y, rightEdge, y + height),
             Line(x, y + (height - imgHeight), rightEdge, y + (height - imgHeight))],
            None)
  }
}
