/**
 * The drawing surface, seen as the sequence of drawing commands it receives.
 * Each shape carries the fill colour that is in force when it is drawn, so
 * the separate set-colour and set-font calls are folded into the commands.
 */
module Canvas {
  import opened Wrappers

  datatype Color =
    | Black | White | Green | LightGrey | Coral | DeepSkyBlue | Yellow | DodgerBlue | Red

  /** What a picture command shows. */
  datatype ImageSource =
    | UrlImage(url: string)     // a photo fetched from the person's image URL
    | Placeholder               // the local placeholder picture
    | Icon(file: string)        // a qualification icon file
    | QrCode(text: string)      // a QR code encoding the given text

  datatype Command =
      /** A stroked rectangle; `fill` is the fill colour, or None when fill=0. */
    | Rect(x: real, y: real, w: real, h: real, fill: Option<Color>)
      /** A filled and stroked rounded rectangle. */
    | RoundRect(x: real, y: real, w: real, h: real, radius: real, color: Color)
    | Text(x: real, y: real, text: string, font: string, size: real, color: Color)
    | Line(x1: real, y1: real, x2: real, y2: real)
    | Picture(source: ImageSource, x: real, y: real, w: real, h: real, preserveAspect: bool)
      /** A square picture rotated by `angle` degrees about its centre (cx, cy). */
    | RotatedPicture(source: ImageSource, cx: real, cy: real, angle: real, side: real,
                     scale: real, padding: real)

  /** The commands a drawing step emitted and, when it stopped early, why. */
  datatype Drawn = Drawn(cmds: seq<Command>, err: Option<Error>)

  /** Runs `b` after `a` unless `a` raised. */
  function Then(a: Drawn, b: Drawn): (r: Drawn)
    ensures a.err.Some? ==> r == a
    ensures a.err.None? ==> r.cmds == a.cmds + b.cmds && r.err == b.err
    ensures a.cmds <= r.cmds
  {
    if a.err.Some? then a else Drawn(a.cmds + b.cmds, b.err)
  }

  /** Appending in two steps emits what appending both at once does. */
  lemma AppendInSteps(trace: seq<Command>, a: seq<Command>, b: seq<Command>)
    ensures (trace + a) + b == trace + (a + b)
  {
  }

  /** A prefix of what comes after a common start is a prefix of the whole. */
  lemma PrefixOfAppend(start: seq<Command>, a: seq<Command>, b: seq<Command>)
    requires a <= b
    ensures start + a <= start + b
  {
    assert (start + b)[..|start + a|] == start + b[..|a|];
  }

  lemma PrefixTransitive(a: seq<Command>, b: seq<Command>, c: seq<Command>)
    requires a <= b && b <= c
    ensures a <= c
  {
    assert c[..|b|][..|a|] == c[..|a|];
  }

  /**
   * The rendering library's text width: `Metric(text, font, size)` is the
   * width of `text` set in `font` at `size` points. It is never negative.
   */
  type Metric = f: (string, string, real) -> real
    | forall text, font, size :: f(text, font, size) >= 0.0
    witness (text: string, font: string, size: real) => 0.0

  /** The drawing surface (a PDF canvas): everything drawn on it, in order. */
  class Surface {
    var trace: seq<Command>

    constructor ()
      ensures trace == []
    {
      trace := [];
    }
  }
}
