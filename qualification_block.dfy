/**
 * The badge column (src/blocks/QualificationsBlock.py): a square split into
 * four quadrants, one per technical qualification, each filled and given an
 * icon when the person holds it, with a QR code for the personnel id laid
 * diagonally over the centre.
 */
module QualificationBlocks {
  import opened Wrappers
  import opened Canvas
  import opened Persons
  import opened Blocks

  datatype Quadrant = TopLeft | TopRight | BottomLeft | BottomRight

  /** One entry of the badge table: the qualification, its quadrant, its colour and its icon. */
  datatype Badge = Badge(key: string, pos: Quadrant, color: Color, iconFile: string)

  /** The badge table, in drawing order. */
  const OPTIONS: seq<Badge> := [
    Badge("TH", TopLeft, Yellow, "th.png"),
    Badge("Maschinist", TopRight, DodgerBlue, "fire_engine.png"),
    Badge("Kettensäge", BottomLeft, Green, "chainsaw.png"),
    Badge("AGT", BottomRight, Red, "agt.png")]

  const QR_BASE_URL: string := "of56.vercel.app/personnel/"
  const QR_ANGLE: real := 315.0
  const QR_SCALE: real := 1.0
  const QR_PADDING: real := 3.0
  /** The defaults of the icon drawing step. */
  const ICON_SCALE: real := 0.6
  const ICON_PADDING: real := 1.0

  /** Each qualification has its own quadrant and its own icon. */
  lemma OptionsAreInjective()
    ensures |OPTIONS| == 4
    ensures forall i, j :: 0 <= i < j < |OPTIONS| ==>
      OPTIONS[i].key != OPTIONS[j].key && OPTIONS[i].pos != OPTIONS[j].pos && OPTIONS[i].iconFile != OPTIONS[j].iconFile
  {
  }

  predicate IsRight(pos: Quadrant)
  {
    pos.TopRight? || pos.BottomRight?
  }

  predicate IsTop(pos: Quadrant)
  {
    pos.TopLeft? || pos.TopRight?
  }

  /** __post_init__: only a square block is accepted; a quadrant's side is half of it. */
  function SideLength(width: real, height: real): (r: Result<real>)
    ensures r.Failure? <==> width != height
    ensures r.Failure? ==> r.error == NotSquare
    ensures r.Success? ==> 2.0 * r.value == width && 2.0 * r.value == height
  {
    if width != height then Failure(NotSquare) else Success(width / 2.0)
  }

  /**
   * __get_square_coords: the bottom-left corner of a quadrant; the right
   * quadrants start one side length to the right, the top ones one side
   * length up. A side length that is not positive fails its assertion.
   */
  function SquareCoords(x: real, y: real, s: real, pos: Quadrant): (r: Result<(real, real)>)
    ensures r.Failure? <==> s <= 0.0
    ensures r.Failure? ==> r.error == NonPositiveSide
    ensures r.Success? ==> r.value.0 - x == (if IsRight(pos) then s else 0.0)
    ensures r.Success? ==> r.value.1 - y == (if IsTop(pos) then s else 0.0)
  {
    if s <= 0.0 then Failure(NonPositiveSide)
    else
      var midVertical := y + s;
      var midHorizontal := x + s;
      match pos
      case TopLeft => Success((x, midVertical))
      case TopRight => Success((midHorizontal, midVertical))
      case BottomLeft => Success((x, y))
      case BottomRight => Success((midHorizontal, y))
  }

  predicate InBlock(x: real, y: real, s: real, px: real, py: real)
  {
    x <= px <= x + 2.0 * s && y <= py <= y + 2.0 * s
  }

  predicate InQuadrant(x: real, y: real, s: real, pos: Quadrant, px: real, py: real)
    requires s > 0.0
  {
    var c := SquareCoords(x, y, s, pos).value;
    c.0 <= px <= c.0 + s && c.1 <= py <= c.1 + s
  }

  predicate InQuadrantInterior(x: real, y: real, s: real, pos: Quadrant, px: real, py: real)
    requires s > 0.0
  {
    var c := SquareCoords(x, y, s, pos).value;
    c.0 < px < c.0 + s && c.1 < py < c.1 + s
  }

  /** The four quadrants cover the block and no two of them overlap. */
  lemma QuadrantsTileBlock(x: real, y: real, s: real)
    requires s > 0.0
    ensures forall px, py :: InBlock(x, y, s, px, py) <==> exists pos :: InQuadrant(x, y, s, pos, px, py)
    ensures forall p, q, px, py :: p != q && InQuadrantInterior(x, y, s, p, px, py) ==>
      !InQuadrantInterior(x, y, s, q, px, py)
  {
    forall px, py | InBlock(x, y, s, px, py)
      ensures exists pos :: InQuadrant(x, y, s, pos, px, py)
    {
      var pos := if px <= x + s then (if py <= y + s then BottomLeft else TopLeft)
                 else (if py <= y + s then BottomRight else TopRight);
      assert InQuadrant(x, y, s, pos, px, py);
    }
  }

  /**
   * __draw_icon: the icon's bottom-left corner and side. A scale above 1
   * is refused before the quadrant is looked up. The icon sits in the
   * quadrant's outer corner: `padding` from the outer vertical edge (twice
   * that on the right quadrants) and from the outer horizontal edge (twice
   * that on the top quadrants).
   */
  function IconBox(x: real, y: real, s: real, pos: Quadrant, scale: real, padding: real): (r: Result<(real, real, real)>)
    ensures r.Failure? <==> scale > 1.0 || s <= 0.0
    ensures r.Failure? ==> r.error == (if scale > 1.0 then ScaleTooLarge else NonPositiveSide)
    ensures r.Success? ==>
      var (ix, iy, size) := r.value;
      var c := SquareCoords(x, y, s, pos).value;
      && size == s * scale - padding
      && (if IsRight(pos) then (c.0 + s) - (ix + size) == 2.0 * padding else ix - c.0 == padding)
      && (if IsTop(pos) then (c.1 + s) - (iy + size) == 2.0 * padding else iy - c.1 == padding)
  {
    if scale > 1.0 then Failure(ScaleTooLarge)
    else match SquareCoords(x, y, s, pos)
      case Failure(e) => Failure(e)
      case Success(c) =>
        var size := s * scale - padding;
        var inset := s * (1.0 - scale) - padding;
        match pos
        case TopLeft => Success((c.0 + padding, c.1 + inset, size))
        case TopRight => Success((c.0 + inset, c.1 + inset, size))
        case BottomLeft => Success((c.0 + padding, c.1 + padding, size))
        case BottomRight => Success((c.0 + inset, c.1 + padding, size))
  }

  /**
   * When the padding fits both beside and inside the icon, the icon lies
   * inside its own quadrant.
   */
  lemma IconInsideQuadrant(x: real, y: real, s: real, pos: Quadrant, scale: real, padding: real)
    requires s > 0.0 && scale <= 1.0
    requires 0.0 <= padding <= s * scale && padding <= s * (1.0 - scale)
    ensures IconBox(x, y, s, pos, scale, padding).Success?
    ensures var (ix, iy, size) := IconBox(x, y, s, pos, scale, padding).value;
      InQuadrant(x, y, s, pos, ix, iy) && InQuadrant(x, y, s, pos, ix + size, iy + size)
  {
    assert s * scale + s * (1.0 - scale) == s;
  }

  /** The QR code: the personnel URL, centred on the block, turned by 315 degrees. */
  function QrCommand(x: real, y: real, s: real, id: string): Command
  {
    RotatedPicture(QrCode(QR_BASE_URL + id), x + s, y + s, QR_ANGLE, s, QR_SCALE, QR_PADDING)
  }

  /** One badge: its stroked square, filled when held, and its icon when held. */
  function BadgeCommands(x: real, y: real, s: real, q: map<string, bool>, b: Badge): (d: Drawn)
    ensures s <= 0.0 ==> d == Drawn([], Some(NonPositiveSide))
    ensures s > 0.0 && b.key !in q ==> d == Drawn([], Some(MissingKey(b.key)))
    ensures s > 0.0 && b.key in q ==>
      var c := SquareCoords(x, y, s, b.pos).value;
      && d.err.None?
      && |d.cmds| == (if q[b.key] then 2 else 1)
      && d.cmds[0] == Rect(c.0, c.1, s, s, if q[b.key] then Some(b.color) else None)
      && (q[b.key] ==> d.cmds[1].Picture? && d.cmds[1].source == Icon(b.iconFile) && d.cmds[1].preserveAspect)
  {
    match SquareCoords(x, y, s, b.pos)
    case Failure(e) => Drawn([], Some(e))
    case Success(c) =>
      if b.key !in q then Drawn([], Some(MissingKey(b.key)))
      else if !q[b.key] then Drawn([Rect(c.0, c.1, s, s, None)], None)
      else
        var square := Rect(c.0, c.1, s, s, Some(b.color));
        match IconBox(x, y, s, b.pos, ICON_SCALE, ICON_PADDING)
        case Failure(e) => Drawn([square], Some(e))
        case Success(icon) =>
          Drawn([square, Picture(Icon(b.iconFile), icon.0, icon.1, icon.2, icon.2, true)], None)
  }

  /** The first n badges of the table, stopping at the first error. */
  function Badges(x: real, y: real, s: real, q: map<string, bool>, n: nat): (d: Drawn)
    requires n <= |OPTIONS|
    ensures d.err.Some? ==> d.err == Some(NonPositiveSide) || d.err.value.MissingKey?
  {
    if n == 0 then Drawn([], None)
    else Then(Badges(x, y, s, q, n - 1), BadgeCommands(x, y, s, q, OPTIONS[n - 1]))
  }

  /** Once a badge has raised, the later badges add nothing. */
  lemma {:induction false} BadgesKeepError(x: real, y: real, s: real, q: map<string, bool>, i: nat, n: nat)
    requires i <= n <= |OPTIONS|
    requires Badges(x, y, s, q, i).err.Some?
    ensures Badges(x, y, s, q, n) == Badges(x, y, s, q, i)
  {
    if n > i {
      BadgesKeepError(x, y, s, q, i, n - 1);
    }
  }

  /** __draw_qualifications: the badge table in order, raising where a badge raises. */
  method DrawQualifications(x: real, y: real, s: real, q: map<string, bool>) returns (d: Drawn)
    ensures d == Badges(x, y, s, q, |OPTIONS|)
  {
    d := Drawn([], None);
    var i := 0;
    while i < |OPTIONS|
      invariant 0 <= i <= |OPTIONS|
      invariant d == Badges(x, y, s, q, i)
      invariant d.err.None?
    {
      var badge := BadgeCommands(x, y, s, q, OPTIONS[i]);
      d := Drawn(d.cmds + badge.cmds, badge.err);
      i := i + 1;
      if d.err.Some? {
        BadgesKeepError(x, y, s, q, i, |OPTIONS|);
        return;
      }
    }
  }

  /** The rectangles of a command trace, in order. */
  function Squares(cmds: seq<Command>): seq<Command>
  {
    if |cmds| == 0 then []
    else Squares(cmds[..|cmds| - 1]) + (if cmds[|cmds| - 1].Rect? then [cmds[|cmds| - 1]] else [])
  }

  /** The sources of the pictures of a command trace, in order. */
  function Pictures(cmds: seq<Command>): seq<ImageSource>
  {
    if |cmds| == 0 then []
    else Pictures(cmds[..|cmds| - 1]) + (if cmds[|cmds| - 1].Picture? then [cmds[|cmds| - 1].source] else [])
  }

  lemma {:induction false} SquaresAppend(a: seq<Command>, b: seq<Command>)
    ensures Squares(a + b) == Squares(a) + Squares(b)
    ensures Pictures(a + b) == Pictures(a) + Pictures(b)
  {
    if |b| > 0 {
      assert (a + b)[..|a + b| - 1] == a + b[..|b| - 1];
      assert (a + b)[|a + b| - 1] == b[|b| - 1];
      SquaresAppend(a, b[..|b| - 1]);
    } else {
      assert a + b == a;
    }
  }

  /** The icons of the held qualifications among the first n badges, in table order. */
  function HeldIcons(q: map<string, bool>, n: nat): seq<ImageSource>
    requires n <= |OPTIONS|
  {
    if n == 0 then []
    else HeldIcons(q, n - 1) + (if Holds(q, OPTIONS[n - 1].key) then [Icon(OPTIONS[n - 1].iconFile)] else [])
  }

  /**
   * With a positive side and every key present: no error, one stroked
   * square per badge at its quadrant, filled with the badge colour exactly
   * when held, and the icons of exactly the held qualifications.
   */
  lemma BadgesDrawn(x: real, y: real, s: real, q: map<string, bool>, n: nat)
    requires n <= |OPTIONS| && s > 0.0
    requires forall b :: b in OPTIONS ==> b.key in q
    ensures Badges(x, y, s, q, n).err.None?
    ensures var squares := Squares(Badges(x, y, s, q, n).cmds);
      && |squares| == n
      && forall k :: 0 <= k < n ==>
        var c := SquareCoords(x, y, s, OPTIONS[k].pos).value;
        squares[k] == Rect(c.0, c.1, s, s, if q[OPTIONS[k].key] then Some(OPTIONS[k].color) else None)
    ensures Pictures(Badges(x, y, s, q, n).cmds) == HeldIcons(q, n)
  {
    BadgesTrace(x, y, s, q, n);
    forall k | 0 <= k < n
      ensures var c := SquareCoords(x, y, s, OPTIONS[k].pos).value;
        BadgeSquares(x, y, s, q, n)[k] == Rect(c.0, c.1, s, s, if q[OPTIONS[k].key] then Some(OPTIONS[k].color) else None)
    {
      BadgeSquaresAt(x, y, s, q, n, k);
    }
  }

  /** The square badge b draws: at its quadrant, filled with its colour when held. */
  function BadgeSquare(x: real, y: real, s: real, q: map<string, bool>, b: Badge): Command
    requires s > 0.0 && b.key in q
  {
    var c := SquareCoords(x, y, s, b.pos).value;
    Rect(c.0, c.1, s, s, if q[b.key] then Some(b.color) else None)
  }

  /** The squares of the first n badges, in table order. */
  function BadgeSquares(x: real, y: real, s: real, q: map<string, bool>, n: nat): (r: seq<Command>)
    requires n <= |OPTIONS| && s > 0.0
    requires forall b :: b in OPTIONS ==> b.key in q
    ensures |r| == n
  {
    if n == 0 then []
    else
      assert OPTIONS[n - 1] in OPTIONS;
      BadgeSquares(x, y, s, q, n - 1) + [BadgeSquare(x, y, s, q, OPTIONS[n - 1])]
  }

  lemma {:induction false} BadgeSquaresAt(x: real, y: real, s: real, q: map<string, bool>, n: nat, k: nat)
    requires k < n <= |OPTIONS| && s > 0.0
    requires forall b :: b in OPTIONS ==> b.key in q
    ensures OPTIONS[k] in OPTIONS
    ensures BadgeSquares(x, y, s, q, n)[k] == BadgeSquare(x, y, s, q, OPTIONS[k])
  {
    if k < n - 1 {
      BadgeSquaresAt(x, y, s, q, n - 1, k);
    }
  }

  /** With every key present, the badges raise nothing and draw their squares and the held icons. */
  lemma {:induction false} BadgesTrace(x: real, y: real, s: real, q: map<string, bool>, n: nat)
    requires n <= |OPTIONS| && s > 0.0
    requires forall b :: b in OPTIONS ==> b.key in q
    ensures Badges(x, y, s, q, n).err.None?
    ensures Squares(Badges(x, y, s, q, n).cmds) == BadgeSquares(x, y, s, q, n)
    ensures Pictures(Badges(x, y, s, q, n).cmds) == HeldIcons(q, n)
  {
    if n > 0 {
      BadgesTrace(x, y, s, q, n - 1);
      var b := OPTIONS[n - 1];
      assert b in OPTIONS;
      var prev := Badges(x, y, s, q, n - 1);
      var cur := BadgeCommands(x, y, s, q, b);
      assert Badges(x, y, s, q, n) == Drawn(prev.cmds + cur.cmds, cur.err);
      BadgeSquaresAndPictures(x, y, s, q, b);
      SquaresAppend(prev.cmds, cur.cmds);
    }
  }

  /** One badge contributes its square and, when held, its icon. */
  lemma BadgeSquaresAndPictures(x: real, y: real, s: real, q: map<string, bool>, b: Badge)
    requires s > 0.0 && b.key in q
    ensures var c := SquareCoords(x, y, s, b.pos).value;
      Squares(BadgeCommands(x, y, s, q, b).cmds) == [Rect(c.0, c.1, s, s, if q[b.key] then Some(b.color) else None)]
    ensures Pictures(BadgeCommands(x, y, s, q, b).cmds) == if q[b.key] then [Icon(b.iconFile)] else []
  {
    var cur := BadgeCommands(x, y, s, q, b).cmds;
    assert Squares([cur[0]]) == Squares([]) + [cur[0]];
    assert Pictures([cur[0]]) == Pictures([]) + [];
    if q[b.key] {
      assert cur[..1] == [cur[0]];
    }
  }

  /** Every quadrant is drawn; a qualification's icon is drawn exactly when it is held. */
  lemma IconDrawnIffHeld(x: real, y: real, s: real, q: map<string, bool>, k: nat)
    requires s > 0.0 && k < |OPTIONS|
    requires forall b :: b in OPTIONS ==> b.key in q
    ensures Icon(OPTIONS[k].iconFile) in Pictures(Badges(x, y, s, q, |OPTIONS|).cmds) <==> q[OPTIONS[k].key]
  {
    BadgesDrawn(x, y, s, q, |OPTIONS|);
    OptionsAreInjective();
    HeldIconsMembers(q, |OPTIONS|, k);
  }

  lemma {:induction false} HeldIconsMembers(q: map<string, bool>, n: nat, k: nat)
    requires n <= |OPTIONS| && k < |OPTIONS|
    requires forall i, j :: 0 <= i < j < |OPTIONS| ==> OPTIONS[i].iconFile != OPTIONS[j].iconFile
    ensures Icon(OPTIONS[k].iconFile) in HeldIcons(q, n) <==> k < n && Holds(q, OPTIONS[k].key)
  {
    if n > 0 {
      HeldIconsMembers(q, n - 1, k);
    }
  }

  /** A quadrant that cannot be placed stops the block before anything is drawn. */
  lemma NonPositiveSideDrawsNothing(x: real, y: real, s: real, q: map<string, bool>)
    requires s <= 0.0
    ensures Badges(x, y, s, q, |OPTIONS|) == Drawn([], Some(NonPositiveSide))
  {
    assert Badges(x, y, s, q, 1) == Drawn([], Some(NonPositiveSide));
    BadgesKeepError(x, y, s, q, 1, |OPTIONS|);
  }

  /** The first qualification missing from the map is the one reported. */
  lemma FirstMissingKeyReported(x: real, y: real, s: real, q: map<string, bool>, k: nat)
    requires s > 0.0 && k < |OPTIONS|
    requires OPTIONS[k].key !in q
    requires forall j :: 0 <= j < k ==> OPTIONS[j].key in q
    ensures Badges(x, y, s, q, |OPTIONS|).err == Some(MissingKey(OPTIONS[k].key))
  {
    BadgesPrefixClean(x, y, s, q, k);
    BadgesKeepError(x, y, s, q, k + 1, |OPTIONS|);
  }

  lemma {:induction false} BadgesPrefixClean(x: real, y: real, s: real, q: map<string, bool>, n: nat)
    requires s > 0.0 && n <= |OPTIONS|
    requires forall j :: 0 <= j < n ==> OPTIONS[j].key in q
    ensures Badges(x, y, s, q, n).err.None?
  {
    if n > 0 {
      BadgesPrefixClean(x, y, s, q, n - 1);
    }
  }

  /** draw: the badges, then the QR code when the person has a personnel id. */
  function Commands(x: real, y: real, s: real, person: Person): (d: Drawn)
    ensures var badges := Badges(x, y, s, person.qualifications, |OPTIONS|);
      && (badges.err.Some? ==> d == badges)
      && (badges.err.None? ==>
        && d.err.None?
        && (Present(person.personnelId) <==> |d.cmds| == |badges.cmds| + 1)
        && (!Present(person.personnelId) ==> |d.cmds| == |badges.cmds|)
        && d.cmds[..|badges.cmds|] == badges.cmds
        && (Present(person.personnelId) ==>
              d.cmds[|badges.cmds|] == QrCommand(x, y, s, person.personnelId.value)))
  {
    var badges := Badges(x, y, s, person.qualifications, |OPTIONS|);
    Then(badges, if Present(person.personnelId)
                 then Drawn([QrCommand(x, y, s, person.personnelId.value)], None)
                 else Drawn([], None))
  }

  method Draw(x: real, y: real, s: real, person: Person) returns (d: Drawn)
    ensures d == Commands(x, y, s, person)
  {
    d := DrawQualifications(x, y, s, person.qualifications);
    if d.err.None? && Present(person.personnelId) {
      d := Drawn(d.cmds + [QrCommand(x, y, s, person.personnelId.value)], None);
    }
  }
}
