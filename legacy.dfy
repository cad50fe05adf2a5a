/**
 * The older single-file driver (main_old.py): its own person normalisation,
 * the function check, the highest-role scan with its rank bars, the vehicle
 * column, the badge squares and the page grid of create_pdf.
 */
module LegacyDriver {
  import opened Wrappers
  import opened Canvas
  import opened Persons
  import opened CardDimensions
  import MainBlocks
  import VehicleBlocks
  import QualificationBlocks
  import Pages

  const ALL_QUALIFICATIONS: seq<string> := ["TH", "AGT", "Sprechfunk", "Maschinist", "Kettensäge", "Klasse C",
    "Truppführer", "Gruppenführer", "Zugführer", "Verbandsführer", "Sanitäter", "Truppmann"]

  /** The card geometry of this driver, in points. */
  const CARD_WIDTH: real := 100.0 * MM_TO_PT
  const CARD_HEIGHT: real := 22.45 * MM_TO_PT
  const VIEW_WINDOW_HEIGHT: real := 19.0 * MM_TO_PT
  const MARGIN: real := 5.0
  /** FontSize.function_text, first_name and function_bar */
  const FUNCTION_TEXT_SIZE: real := 6.0
  const FIRST_NAME_SIZE: real := 12.0
  const FUNCTION_BAR_SIZE: real := 8.0
  const IMAGE_HEIGHT: real := VIEW_WINDOW_HEIGHT - FUNCTION_TEXT_SIZE - 2.0
  const IMAGE_WIDTH: real := IMAGE_HEIGHT * 0.75
  const ROLE_INDICATOR_HEIGHT: real := 12.0
  const BOX_MARGIN: real := 2.0
  const FONT: string := "Helvetica"
  const BOLD_FONT: string := "Helvetica-Bold"

  // ---------------------------------------------------------------- person

  /** Person.from_json of this driver: every key of its own closed list, true iff listed. */
  function FromJson(data: PersonJson): (p: Person)
    ensures forall k :: k in p.qualifications <==> k in ALL_QUALIFICATIONS
    ensures forall k :: k in p.qualifications ==> (p.qualifications[k] <==> k in data.qualifications)
    ensures p.instructions == data.instructions && p.functionName == data.functionName
    ensures p.firstName == data.firstName && p.lastName == data.lastName
    ensures p.personnelId == data.personnelId && p.imageUrl == data.imageUrl
  {
    Person(data.firstName, data.lastName, data.personnelId, data.imageUrl, data.functionName,
           Normalise((set k | k in ALL_QUALIFICATIONS), data.qualifications), data.instructions)
  }

  /**
   * This driver knows every key the newer record knows, plus "Sprechfunk"
   * and "Sanitäter", and the two records agree on every shared key.
   */
  lemma FromJsonExtendsCurrent(data: PersonJson)
    ensures FromJson(data).qualifications.Keys == QualificationKeys() + {"Sprechfunk", "Sanitäter"}
    ensures forall k :: k in QualificationKeys() ==>
      FromJson(data).qualifications[k] == Persons.FromJson(data).qualifications[k]
  {
    LegacyKeySet();
    assert FromJson(data).qualifications.Keys == set k | k in ALL_QUALIFICATIONS;
  }

  /** The legacy key set, as a set. */
  lemma LegacyKeySet()
    ensures (set k | k in ALL_QUALIFICATIONS) == QualificationKeys() + {"Sprechfunk", "Sanitäter"}
  {
    LegacyKeysExtendCurrent();
  }

  /** The legacy key list holds the newer keys and the two extra ones, and nothing else. */
  lemma LegacyKeysExtendCurrent()
    ensures forall k :: k in ALL_QUALIFICATIONS <==>
      k in TECHNICAL_QUALIFICATIONS || k in LEADING_QUALIFICATIONS || k == "Sprechfunk" || k == "Sanitäter"
  {
    var known := TECHNICAL_QUALIFICATIONS + LEADING_QUALIFICATIONS;
    assert ALL_QUALIFICATIONS == [known[0], known[1], "Sprechfunk", known[2], known[3], known[4],
                                  known[6], known[7], known[8], known[9], "Sanitäter", known[5]];
    assert known == [known[0], known[1], known[2], known[3], known[4],
                     known[5], known[6], known[7], known[8], known[9]];
  }

  /** The function check: a function outside the closed list, or none at all, is refused. */
  function CheckFunction(person: Person): (r: Result<string>)
    ensures r.Success? <==> person.functionName.Some? && person.functionName.value in FUNCTIONS
    ensures r.Success? ==> r.value == person.functionName.value
    ensures r.Failure? ==> r.error == IllegalFunction
  {
    if person.functionName.Some? && person.functionName.value in FUNCTIONS then Success(person.functionName.value)
    else Failure(IllegalFunction)
  }

  // ---------------------------------------------------------------- highest role

  /** The role table in the order it is scanned: qualification key, short code, rank value. */
  const MAPPING: seq<(string, string, nat)> := [
    ("Verbandsführer", "VF", 4), ("Zugführer", "ZF", 3), ("Gruppenführer", "GF", 2),
    ("Truppführer", "TF", 1), ("Truppmann", "TM", 0)]

  /** The scan table is the newer role list read from the top rank down. */
  lemma MappingMirrorsRoles()
    ensures |MAPPING| == |MainBlocks.ROLES| == |MainBlocks.ROLE_NAMES| == 5
    ensures forall j :: 0 <= j < 5 ==>
      MAPPING[j] == (MainBlocks.ROLE_NAMES[4 - j], MainBlocks.ROLES[4 - j], 4 - j)
  {
  }

  /**
   * The first n steps of the scan: the role and value kept so far. A role
   * replaces the kept one when it is held and its value is at least the kept
   * value; a key missing from the map raises.
   */
  function ScanRoles(q: map<string, bool>, n: nat): Result<(Option<(string, nat)>, nat)>
    requires n <= |MAPPING|
  {
    if n == 0 then Success((None, 0))
    else
      match ScanRoles(q, n - 1)
      case Failure(e) => Failure(e)
      case Success((role, value)) =>
        var (name, short, v) := MAPPING[n - 1];
        if name !in q then Failure(MissingKey(name))
        else if q[name] && v >= value then Success((Some((short, v)), v))
        else Success((role, value))
  }

  /** The scan's result: the kept role after the whole table. */
  function HighestRole(q: map<string, bool>): Result<Option<(string, nat)>>
  {
    match ScanRoles(q, |MAPPING|)
    case Failure(e) => Failure(e)
    case Success((role, _)) => Success(role)
  }

  lemma {:induction false} ScanFailureSticks(q: map<string, bool>, k: nat, n: nat)
    requires k <= n <= |MAPPING| && ScanRoles(q, k).Failure?
    ensures ScanRoles(q, n) == ScanRoles(q, k)
    decreases n
  {
    if n > k {
      ScanFailureSticks(q, k, n - 1);
    }
  }

  /** The highest-role scan as a loop over the table. */
  method ScanHighestRole(q: map<string, bool>) returns (r: Result<Option<(string, nat)>>)
    ensures r == HighestRole(q)
  {
    var highestRole: Option<(string, nat)> := None;
    var highestValue: nat := 0;
    for k := 0 to |MAPPING|
      invariant ScanRoles(q, k) == Success((highestRole, highestValue))
    {
      var (name, short, value) := MAPPING[k];
      if name !in q {
        ScanFailureSticks(q, k + 1, |MAPPING|);
        return Failure(MissingKey(name));
      }
      if q[name] {
        if value >= highestValue {
          highestValue := value;
          highestRole := Some((short, value));
        }
      }
    }
    r := Success(highestRole);
  }

  /** The first table entry (from the top rank down) the person holds, among the first n. */
  function FirstHeld(q: map<string, bool>, n: nat): (r: Option<nat>)
    requires n <= |MAPPING|
    ensures r.Some? ==> r.value < n && Holds(q, MAPPING[r.value].0)
    ensures r.Some? ==> forall j :: 0 <= j < r.value ==> !Holds(q, MAPPING[j].0)
    ensures r.None? ==> forall j :: 0 <= j < n ==> !Holds(q, MAPPING[j].0)
  {
    if n == 0 then None
    else if FirstHeld(q, n - 1).Some? then FirstHeld(q, n - 1)
    else if Holds(q, MAPPING[n - 1].0) then Some(n - 1)
    else None
  }

  /** With every key present, the scan keeps the first held entry: the one with the highest rank. */
  lemma {:induction false} ScanKeepsFirstHeld(q: map<string, bool>, n: nat)
    requires n <= |MAPPING|
    requires forall j :: 0 <= j < n ==> MAPPING[j].0 in q
    ensures ScanRoles(q, n).Success?
    ensures FirstHeld(q, n).None? ==> ScanRoles(q, n).value == (None, 0)
    ensures FirstHeld(q, n).Some? ==>
      var e := MAPPING[FirstHeld(q, n).value];
      ScanRoles(q, n).value == (Some((e.1, e.2)), e.2)
  {
    if n > 0 {
      ScanKeepsFirstHeld(q, n - 1);
      MappingMirrorsRoles();
    }
  }

  /**
   * With every role key present, the older scan and the newer role index
   * agree: nothing held gives None, otherwise the scan yields the code and
   * index of the highest held role (so "TM" alone gives ("TM", 0)).
   */
  lemma ScanAgreesWithRoleIndex(q: map<string, bool>)
    requires forall j :: 0 <= j < |MAPPING| ==> MAPPING[j].0 in q
    ensures HighestRole(q).Success?
    ensures HighestRole(q).value.None? <==> MainBlocks.HighestRoleIdx(q).None?
    ensures MainBlocks.HighestRoleIdx(q).Some? ==>
      var i := MainBlocks.HighestRoleIdx(q).value;
      HighestRole(q).value == Some((MainBlocks.ROLES[i], i))
  {
    ScanKeepsFirstHeld(q, |MAPPING|);
    MappingMirrorsRoles();
    var first := FirstHeld(q, |MAPPING|);
    var idx := MainBlocks.HighestRoleIdx(q);
    if idx.Some? {
      var i := idx.value;
      assert MAPPING[4 - i].0 == MainBlocks.ROLE_NAMES[i];
      assert Holds(q, MAPPING[4 - i].0);
      assert first.Some?;
      var j := first.value;
      assert MainBlocks.ROLE_NAMES[4 - j] == MAPPING[j].0;
      assert Holds(q, MainBlocks.ROLE_NAMES[4 - j]);
    }
    if first.Some? {
      var j := first.value;
      assert MainBlocks.ROLE_NAMES[4 - j] == MAPPING[j].0;
      assert Holds(q, MainBlocks.ROLE_NAMES[4 - j]);
      assert idx.Some?;
    }
  }

  // ---------------------------------------------------------------- rank bars

  /** The codes of bars 1..4. */
  const BAR_ROLES: seq<string> := ["TF", "GF", "ZF", "VF"]

  function BeamWidth(maxWidth: real): real
  {
    maxWidth / 4.0
  }

  /** Bar i (1..4): green when the rank value reaches i. */
  function BarRect(x: real, y: real, maxWidth: real, maxHeight: real, idx: nat, i: nat): Command
  {
    RoundRect(x + (i - 1) as real * BeamWidth(maxWidth), y, BeamWidth(maxWidth), maxHeight, 5.0,
              if idx >= i then Green else LightGrey)
  }

  /** The label of bar i, centred by the code's width at the bar font size but set two points larger. */
  function BarLabel(x: real, y: real, maxWidth: real, maxHeight: real, idx: nat, i: nat, metric: Metric): Command
    requires 1 <= i <= 4
  {
    var sw := metric(BAR_ROLES[i - 1], BOLD_FONT, FUNCTION_BAR_SIZE);
    Text(x + (i - 1) as real * BeamWidth(maxWidth) + (BeamWidth(maxWidth) - sw) / 2.0,
         y + (maxHeight - FUNCTION_BAR_SIZE) / 2.0,
         BAR_ROLES[i - 1], BOLD_FONT, FUNCTION_BAR_SIZE + 2.0, if idx >= i then White else Black)
  }

  /** The first n bars drawn, from bar 4 down to bar 5 - n, each followed by its label. */
  function Bars(x: real, y: real, maxWidth: real, maxHeight: real, idx: nat, metric: Metric, n: nat): (r: seq<Command>)
    requires n <= 4
    ensures |r| == 2 * n
  {
    if n == 0 then []
    else Bars(x, y, maxWidth, maxHeight, idx, metric, n - 1)
         + [BarRect(x, y, maxWidth, maxHeight, idx, 5 - n), BarLabel(x, y, maxWidth, maxHeight, idx, 5 - n, metric)]
  }

  /** draw_leading_role_indicator: for i from 4 down to 1, a bar and its label. */
  method DrawLeadingRoleIndicator(x: real, y: real, maxWidth: real, maxHeight: real, idx: nat, metric: Metric)
    returns (cmds: seq<Command>)
    ensures cmds == Bars(x, y, maxWidth, maxHeight, idx, metric, 4)
  {
    cmds := [];
    var beamWidth := maxWidth / 4.0;
    var i := 4;
    while i > 0
      invariant 0 <= i <= 4
      invariant cmds == Bars(x, y, maxWidth, maxHeight, idx, metric, 4 - i)
    {
      var bar := RoundRect(x + (i - 1) as real * beamWidth, y, beamWidth, maxHeight, 5.0,
                           if idx >= i then Green else LightGrey);
      var sw := metric(BAR_ROLES[i - 1], BOLD_FONT, FUNCTION_BAR_SIZE);
      var caption := Text(x + (i - 1) as real * beamWidth + (beamWidth - sw) / 2.0,
                          y + (maxHeight - FUNCTION_BAR_SIZE) / 2.0,
                          BAR_ROLES[i - 1], BOLD_FONT, FUNCTION_BAR_SIZE + 2.0, if idx >= i then White else Black);
      assert bar == BarRect(x, y, maxWidth, maxHeight, idx, i);
      assert caption == BarLabel(x, y, maxWidth, maxHeight, idx, i, metric);
      assert Bars(x, y, maxWidth, maxHeight, idx, metric, 4 - i + 1) == cmds + [bar, caption];
      cmds := cmds + [bar, caption];
      i := i - 1;
    }
  }

  lemma {:induction false} BarsAt(x: real, y: real, maxWidth: real, maxHeight: real, idx: nat, metric: Metric,
                                  n: nat, k: nat)
    requires n <= 4 && k < n
    ensures |Bars(x, y, maxWidth, maxHeight, idx, metric, n)| == 2 * n
    ensures Bars(x, y, maxWidth, maxHeight, idx, metric, n)[2 * k] == BarRect(x, y, maxWidth, maxHeight, idx, 4 - k)
    ensures Bars(x, y, maxWidth, maxHeight, idx, metric, n)[2 * k + 1] == BarLabel(x, y, maxWidth, maxHeight, idx, 4 - k, metric)
  {
    if k < n - 1 {
      BarsAt(x, y, maxWidth, maxHeight, idx, metric, n - 1, k);
    } else if n > 1 {
      BarsAt(x, y, maxWidth, maxHeight, idx, metric, n - 1, 0);
    }
  }

  /**
   * Four bars, the k-th drawn being bar 4 - k; they tile [x, x + maxWidth]
   * at the given height, and bar i is green exactly when the rank value
   * reaches i, as in the newer name column.
   */
  lemma BarsTileIndicator(x: real, y: real, maxWidth: real, maxHeight: real, idx: nat, metric: Metric)
    ensures |Bars(x, y, maxWidth, maxHeight, idx, metric, 4)| == 8
    ensures forall k :: 0 <= k < 4 ==>
      Bars(x, y, maxWidth, maxHeight, idx, metric, 4)[2 * k] == BarRect(x, y, maxWidth, maxHeight, idx, 4 - k)
    ensures BarRect(x, y, maxWidth, maxHeight, idx, 1).x == x
    ensures forall i :: 1 <= i < 4 ==>
      BarRect(x, y, maxWidth, maxHeight, idx, i).x + BarRect(x, y, maxWidth, maxHeight, idx, i).w
        == BarRect(x, y, maxWidth, maxHeight, idx, i + 1).x
    ensures BarRect(x, y, maxWidth, maxHeight, idx, 4).x + BarRect(x, y, maxWidth, maxHeight, idx, 4).w == x + maxWidth
    ensures forall i, x', y', w' :: 1 <= i <= 4 ==>
      BarRect(x, y, maxWidth, maxHeight, idx, i).color == MainBlocks.BarRect(x', y', w', idx, i).color
  {
    forall k | 0 <= k < 4
      ensures Bars(x, y, maxWidth, maxHeight, idx, metric, 4)[2 * k] == BarRect(x, y, maxWidth, maxHeight, idx, 4 - k)
    {
      BarsAt(x, y, maxWidth, maxHeight, idx, metric, 4, k);
    }
    BarsAt(x, y, maxWidth, maxHeight, idx, metric, 4, 0);
  }

  /** Either the rank bars (any held role, even "TM" alone) or the trainee label. */
  function Indicator(xContent: real, yContent: real, boxLeftX: real, role: Option<(string, nat)>, metric: Metric)
    : (cmds: seq<Command>)
    ensures role.None? <==> cmds == [Text(xContent + IMAGE_WIDTH + MARGIN, yContent + MARGIN, MainBlocks.TRAINEE_LABEL,
                                         BOLD_FONT, FIRST_NAME_SIZE, Coral)]
    ensures role.Some? ==>
      cmds == Bars(xContent + IMAGE_WIDTH + MARGIN, yContent + MARGIN, boxLeftX - xContent - IMAGE_WIDTH - 2.0 * MARGIN,
                   ROLE_INDICATOR_HEIGHT, role.value.1, metric, 4)
    ensures role.Some? ==> forall k :: 0 <= k < |cmds| ==> !(cmds[k].Text? && cmds[k].text == MainBlocks.TRAINEE_LABEL)
  {
    if role.Some? then
      var bars := Bars(xContent + IMAGE_WIDTH + MARGIN, yContent + MARGIN,
                       boxLeftX - xContent - IMAGE_WIDTH - 2.0 * MARGIN, ROLE_INDICATOR_HEIGHT, role.value.1, metric, 4);
      BarsAt(xContent + IMAGE_WIDTH + MARGIN, yContent + MARGIN,
             boxLeftX - xContent - IMAGE_WIDTH - 2.0 * MARGIN, ROLE_INDICATOR_HEIGHT, role.value.1, metric, 4, 0);
      assert forall k :: 0 <= k < |bars| ==> !(bars[k].Text? && bars[k].text == MainBlocks.TRAINEE_LABEL) by {
        forall k | 0 <= k < |bars|
          ensures !(bars[k].Text? && bars[k].text == MainBlocks.TRAINEE_LABEL)
        {
          BarsAt(xContent + IMAGE_WIDTH + MARGIN, yContent + MARGIN,
                 boxLeftX - xContent - IMAGE_WIDTH - 2.0 * MARGIN, ROLE_INDICATOR_HEIGHT, role.value.1, metric, 4, k / 2);
        }
      }
      bars
    else
      [Text(xContent + IMAGE_WIDTH + MARGIN, yContent + MARGIN, MainBlocks.TRAINEE_LABEL, BOLD_FONT, FIRST_NAME_SIZE, Coral)]
  }

  // ---------------------------------------------------------------- vehicle column

  /**
   * The vehicle column: the view window's height shared by the
   * instructions (none divides by zero), as wide as the widest name plus
   * the margins, ending where the badge square begins. Returns its left
   * edge and its commands.
   */
  function VehicleColumn(xContent: real, yContent: real, instrs: seq<Instruction>, metric: Metric)
    : (r: Result<(real, seq<Command>)>)
    ensures r.Failure? <==> |instrs| == 0
    ensures r.Failure? ==> r.error == ZeroDivision
  {
    if |instrs| == 0 then Failure(ZeroDivision)
    else
      var rectHeight := VIEW_WINDOW_HEIGHT / |instrs| as real;
      var longest := VehicleBlocks.MaxNameWidth(instrs, FONT, rectHeight - 2.0, metric);
      var boxLeftX := xContent + CARD_WIDTH - VIEW_WINDOW_HEIGHT - longest - 2.0 * BOX_MARGIN;
      Success((boxLeftX, VehicleBlocks.Boxes(boxLeftX, yContent, longest + 2.0 * BOX_MARGIN, VIEW_WINDOW_HEIGHT,
                                             rectHeight, rectHeight - 2.0, FONT, instrs, |instrs|)))
  }

  /** The vehicle loop of draw_single_card, walking down from the top of the view window. */
  method DrawVehicleColumn(xContent: real, yContent: real, instrs: seq<Instruction>, metric: Metric)
    returns (r: Result<(real, seq<Command>)>)
    ensures r == VehicleColumn(xContent, yContent, instrs, metric)
  {
    if |instrs| == 0 {
      return Failure(ZeroDivision);
    }
    var yCurrent := yContent + VIEW_WINDOW_HEIGHT;
    var rectHeight := VIEW_WINDOW_HEIGHT / |instrs| as real;
    var longest := VehicleBlocks.MaxNameWidth(instrs, FONT, rectHeight - 2.0, metric);
    var boxLeftX := xContent + CARD_WIDTH - VIEW_WINDOW_HEIGHT - longest - 2.0 * BOX_MARGIN;
    var cmds := [];
    for k := 0 to |instrs|
      invariant yCurrent - rectHeight == VehicleBlocks.BoxY(yContent, VIEW_WINDOW_HEIGHT, rectHeight, k)
      invariant cmds == VehicleBlocks.Boxes(boxLeftX, yContent, longest + 2.0 * BOX_MARGIN, VIEW_WINDOW_HEIGHT,
                                            rectHeight, rectHeight - 2.0, FONT, instrs, k)
    {
      var i := instrs[k];
      cmds := cmds + [Rect(boxLeftX, yCurrent - rectHeight, longest + 2.0 * BOX_MARGIN, rectHeight,
                           if i.value then Some(DeepSkyBlue) else None)];
      yCurrent := yCurrent - rectHeight;
      cmds := cmds + [Text(boxLeftX + BOX_MARGIN, yCurrent + BOX_MARGIN, i.vehicle, FONT, rectHeight - 2.0, Black)];
      assert VehicleBlocks.BoxY(yContent, VIEW_WINDOW_HEIGHT, rectHeight, k + 1)
          == VehicleBlocks.BoxY(yContent, VIEW_WINDOW_HEIGHT, rectHeight, k) - rectHeight;
    }
    r := Success((boxLeftX, cmds));
  }

  /**
   * The boxes split the view window evenly and the column ends exactly
   * where the badge square (one view-window height wide, at the right end
   * of the card) begins; it is as wide as the newer column at the same
   * font size.
   */
  lemma VehicleColumnGeometry(xContent: real, yContent: real, instrs: seq<Instruction>, metric: Metric)
    requires |instrs| > 0
    ensures var rectHeight := VIEW_WINDOW_HEIGHT / |instrs| as real;
      var (boxLeftX, cmds) := VehicleColumn(xContent, yContent, instrs, metric).value;
      && rectHeight * |instrs| as real == VIEW_WINDOW_HEIGHT
      && |cmds| == 2 * |instrs|
      && boxLeftX + VehicleBlocks.CalculateWidth(instrs, FONT, rectHeight - 2.0, metric).value
           == xContent + CARD_WIDTH - VIEW_WINDOW_HEIGHT
      && cmds[0].Rect? && cmds[0].y + cmds[0].h == yContent + VIEW_WINDOW_HEIGHT
      && cmds[2 * |instrs| - 2].Rect? && cmds[2 * |instrs| - 2].y == yContent
  {
    var n := |instrs|;
    var rectHeight := VIEW_WINDOW_HEIGHT / n as real;
    var longest := VehicleBlocks.MaxNameWidth(instrs, FONT, rectHeight - 2.0, metric);
    var boxLeftX := xContent + CARD_WIDTH - VIEW_WINDOW_HEIGHT - longest - 2.0 * BOX_MARGIN;
    VehicleBlocks.OneBoxPerInstruction(boxLeftX, yContent, longest + 2.0 * BOX_MARGIN, VIEW_WINDOW_HEIGHT,
                                       rectHeight, rectHeight - 2.0, FONT, instrs, 0);
    VehicleBlocks.OneBoxPerInstruction(boxLeftX, yContent, longest + 2.0 * BOX_MARGIN, VIEW_WINDOW_HEIGHT,
                                       rectHeight, rectHeight - 2.0, FONT, instrs, n - 1);
    VehicleBlocks.BoxesTileHeight(yContent, VIEW_WINDOW_HEIGHT, rectHeight, n);
  }

  // ---------------------------------------------------------------- badge squares

  /** The bottom-left corner of a quadrant of the badge square of side s. */
  function Field(left: real, bottom: real, s: real, pos: QualificationBlocks.Quadrant): (real, real)
  {
    match pos
    case TopLeft => (left, bottom + s / 2.0)
    case TopRight => (left + s / 2.0, bottom + s / 2.0)
    case BottomLeft => (left, bottom)
    case BottomRight => (left + s / 2.0, bottom)
  }

  /** The quadrants are those of the newer badge column, whose quadrant side is half the square. */
  lemma FieldIsSquareCoords(left: real, bottom: real, s: real, pos: QualificationBlocks.Quadrant)
    requires s > 0.0
    ensures Success(Field(left, bottom, s, pos)) == QualificationBlocks.SquareCoords(left, bottom, s / 2.0, pos)
  {
  }

  /** The filled square of one badge. */
  function SquareRect(left: real, bottom: real, s: real, b: QualificationBlocks.Badge): Command
  {
    var (fx, fy) := Field(left, bottom, s, b.pos);
    Rect(fx, fy, s / 2.0, s / 2.0, Some(b.color))
  }

  /** The squares of the first n badges: one for each held qualification; a missing key raises. */
  function Squares(q: map<string, bool>, left: real, bottom: real, s: real, n: nat): Drawn
    requires n <= |QualificationBlocks.OPTIONS|
  {
    if n == 0 then Drawn([], None)
    else
      var prefix := Squares(q, left, bottom, s, n - 1);
      var b := QualificationBlocks.OPTIONS[n - 1];
      if prefix.err.Some? then prefix
      else if b.key !in q then Drawn(prefix.cmds, Some(MissingKey(b.key)))
      else if !q[b.key] then prefix
      else Drawn(prefix.cmds + [SquareRect(left, bottom, s, b)], None)
  }

  /** draw_qualifications_only_squares: the held qualifications only, skipping the others. */
  method DrawSquares(q: map<string, bool>, left: real, bottom: real, s: real) returns (d: Drawn)
    ensures d == Squares(q, left, bottom, s, |QualificationBlocks.OPTIONS|)
  {
    var cmds := [];
    for k := 0 to |QualificationBlocks.OPTIONS|
      invariant Squares(q, left, bottom, s, k) == Drawn(cmds, None)
    {
      var b := QualificationBlocks.OPTIONS[k];
      if b.key !in q {
        SquaresKeepError(q, left, bottom, s, k + 1, |QualificationBlocks.OPTIONS|);
        return Drawn(cmds, Some(MissingKey(b.key)));
      }
      if !q[b.key] {
        continue;
      }
      var (fx, fy) := Field(left, bottom, s, b.pos);
      cmds := cmds + [Rect(fx, fy, s / 2.0, s / 2.0, Some(b.color))];
    }
    d := Drawn(cmds, None);
  }

  lemma {:induction false} SquaresKeepError(q: map<string, bool>, left: real, bottom: real, s: real, k: nat, n: nat)
    requires k <= n <= |QualificationBlocks.OPTIONS| && Squares(q, left, bottom, s, k).err.Some?
    ensures Squares(q, left, bottom, s, n) == Squares(q, left, bottom, s, k)
    decreases n
  {
    if n > k {
      SquaresKeepError(q, left, bottom, s, k, n - 1);
    }
  }

  /**
   * With every badge key present, a square is drawn exactly for each held
   * qualification, in its fixed quadrant and colour, and nothing else.
   */
  lemma {:induction false} SquaresOnlyForHeld(q: map<string, bool>, left: real, bottom: real, s: real, n: nat)
    requires n <= |QualificationBlocks.OPTIONS|
    requires forall k :: 0 <= k < n ==> QualificationBlocks.OPTIONS[k].key in q
    ensures Squares(q, left, bottom, s, n).err.None?
    ensures forall c :: c in Squares(q, left, bottom, s, n).cmds ==>
      exists k :: 0 <= k < n && q[QualificationBlocks.OPTIONS[k].key]
        && c == SquareRect(left, bottom, s, QualificationBlocks.OPTIONS[k])
    ensures forall k :: 0 <= k < n && q[QualificationBlocks.OPTIONS[k].key] ==>
      SquareRect(left, bottom, s, QualificationBlocks.OPTIONS[k]) in Squares(q, left, bottom, s, n).cmds
    ensures |Squares(q, left, bottom, s, n).cmds| <= n
  {
    if n > 0 {
      SquaresOnlyForHeld(q, left, bottom, s, n - 1);
    }
  }

  // ---------------------------------------------------------------- page grid

  /**
   * create_pdf of this driver: the paper size is ignored and the cards are
   * always laid out on landscape A4, by the same rule as the newer driver.
   */
  method CreatePdf(persons: seq<Person>, paperSize: string) returns (cards: seq<Pages.Placement>)
    ensures cards == Pages.A4Layout(persons)
  {
    cards := [];
    var page: nat, xOffset, yOffset := 0, Pages.EDGE_MARGIN, Pages.PAGE_HEIGHT - CARD_HEIGHT - Pages.EDGE_MARGIN;
    for k := 0 to |persons|
      invariant Pages.Cursor(page, xOffset, yOffset) == Pages.CursorAfter(k)
      invariant cards == Pages.A4Layout(persons[..k])
    {
      if yOffset < Pages.EDGE_MARGIN {
        page := page + 1;
        xOffset := Pages.EDGE_MARGIN;
        yOffset := Pages.PAGE_HEIGHT - CARD_HEIGHT - Pages.EDGE_MARGIN;
      }
      cards := cards + [Pages.Placement(persons[k], Pages.Cursor(page, xOffset, yOffset))];
      xOffset := xOffset + CARD_WIDTH;
      if xOffset + CARD_WIDTH > Pages.PAGE_WIDTH - Pages.EDGE_MARGIN {
        xOffset := Pages.EDGE_MARGIN;
        yOffset := yOffset - (CARD_HEIGHT + Pages.GRID_MARGIN_Y);
      }
    }
    assert persons[..|persons|] == persons;
  }
}
