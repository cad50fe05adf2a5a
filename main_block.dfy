/**
 * The name column (src/blocks/MainBlock.py): last and first name at the top,
 * at the bottom either four rank bars or the trainee label, and the
 * personnel id on the right.
 */
module MainBlocks {
  import opened Wrappers
  import opened Canvas
  import opened Persons

  const PADDING: real := 5.0
  const BAR_MAX_HEIGHT: real := 12.0
  const BAR_FONT_PADDING: real := 2.0
  const BAR_RADIUS: real := 5.0
  /** Short codes of the leading roles, lowest first. */
  const ROLES: seq<string> := ["TM", "TF", "GF", "ZF", "VF"]
  /** The qualification keys of the same roles, in the same order. */
  const ROLE_NAMES: seq<string> := LEADING_QUALIFICATIONS
  /** FontSize.last_name, first_name, personnel_id */
  const LAST_NAME_SIZE: real := 15.0
  const FIRST_NAME_SIZE: real := 12.0
  const PERSONNEL_ID_SIZE: real := 8.0
  const TRAINEE_LABEL: string := "Anwärter"

  // ---------------------------------------------------------------- highest role

  /** The largest index below `n` whose role the person holds, if any. */
  function HighestHeldBelow(q: map<string, bool>, n: nat): (r: Option<nat>)
    requires n <= |ROLE_NAMES|
    ensures r.Some? ==>
      && r.value < n && Holds(q, ROLE_NAMES[r.value])
      && forall j :: r.value < j < n ==> !Holds(q, ROLE_NAMES[j])
    ensures r.None? ==> forall j :: 0 <= j < n ==> !Holds(q, ROLE_NAMES[j])
  {
    if n == 0 then None
    else if Holds(q, ROLE_NAMES[n - 1]) then Some(n - 1)
    else HighestHeldBelow(q, n - 1)
  }

  /**
   * __set_highest_role_idx: the maximum index of a held role, None when no
   * role is held. A missing key counts as not held.
   */
  function HighestRoleIdx(q: map<string, bool>): (r: Option<nat>)
    ensures r.Some? ==>
      && r.value < |ROLES| && Holds(q, ROLE_NAMES[r.value])
      && forall j :: r.value < j < |ROLES| ==> !Holds(q, ROLE_NAMES[j])
    ensures r.None? <==> forall j :: 0 <= j < |ROLES| ==> !Holds(q, ROLE_NAMES[j])
  {
    HighestHeldBelow(q, |ROLE_NAMES|)
  }

  // ---------------------------------------------------------------- rank bars

  /** One bar per role except "TM", sharing the width inside the padding. */
  function BeamWidth(width: real): real
  {
    (width - 2.0 * PADDING) / (|ROLES| - 1) as real
  }

  /** Bar i (1..4): green when the person's rank reaches role i. */
  function BarRect(x: real, y: real, width: real, idx: nat, i: nat): Command
  {
    RoundRect(x + PADDING + (i - 1) as real * BeamWidth(width), y + PADDING, BeamWidth(width),
              BAR_MAX_HEIGHT, BAR_RADIUS, if idx >= i then Green else LightGrey)
  }

  /** The label of bar i: the role's code, centred in the bar. */
  function BarLabel(x: real, y: real, width: real, idx: nat, i: nat, font: string, metric: Metric): Command
    requires 1 <= i < |ROLES|
  {
    var bold := font + "-Bold";
    var size := BAR_MAX_HEIGHT - 2.0 * BAR_FONT_PADDING;
    var sw := metric(ROLES[i], bold, size);
    Text(x + PADDING + (i - 1) as real * BeamWidth(width) + (BeamWidth(width) - sw) / 2.0,
         y + PADDING + (BAR_MAX_HEIGHT - size) / 2.0 + 1.0,
         ROLES[i], bold, size, if idx >= i then White else Black)
  }

  /** The commands of bars 1..n, each bar followed by its label. */
  function Bars(x: real, y: real, width: real, idx: nat, font: string, metric: Metric, n: nat): seq<Command>
    requires n < |ROLES|
  {
    if n == 0 then []
    else Bars(x, y, width, idx, font, metric, n - 1)
         + [BarRect(x, y, width, idx, n), BarLabel(x, y, width, idx, n, font, metric)]
  }

  /** Bars(n) holds exactly bars 1..n: bar i's rectangle at 2(i-1), its label right after. */
  lemma {:induction false} BarsAt(x: real, y: real, width: real, idx: nat, font: string, metric: Metric,
                                  n: nat, i: nat)
    requires n < |ROLES| && 1 <= i <= n
    ensures |Bars(x, y, width, idx, font, metric, n)| == 2 * n
    ensures Bars(x, y, width, idx, font, metric, n)[2 * (i - 1)] == BarRect(x, y, width, idx, i)
    ensures Bars(x, y, width, idx, font, metric, n)[2 * i - 1] == BarLabel(x, y, width, idx, i, font, metric)
  {
    BarsLength(x, y, width, idx, font, metric, n - 1);
    if i < n {
      BarsAt(x, y, width, idx, font, metric, n - 1, i);
    }
  }

  lemma {:induction false} BarsLength(x: real, y: real, width: real, idx: nat, font: string, metric: Metric, n: nat)
    requires n < |ROLES|
    ensures |Bars(x, y, width, idx, font, metric, n)| == 2 * n
  {
    if n > 0 {
      BarsLength(x, y, width, idx, font, metric, n - 1);
    }
  }

  /**
   * __draw_qualification_bars: for i in 1..4 a rounded bar and its label.
   * Exactly four bars; "TM" never gets one.
   */
  method DrawQualificationBars(x: real, y: real, width: real, idx: nat, font: string, metric: Metric)
    returns (cmds: seq<Command>)
    ensures cmds == Bars(x, y, width, idx, font, metric, |ROLES| - 1)
    ensures |cmds| == 2 * (|ROLES| - 1)
  {
    cmds := [];
    var i := 1;
    while i < |ROLES|
      invariant 1 <= i <= |ROLES|
      invariant cmds == Bars(x, y, width, idx, font, metric, i - 1)
    {
      var hasRole := idx >= i;
      var bar := RoundRect(x + PADDING + (i - 1) as real * BeamWidth(width), y + PADDING, BeamWidth(width),
                           BAR_MAX_HEIGHT, BAR_RADIUS, if hasRole then Green else LightGrey);
      var bold := font + "-Bold";
      var fontSize := BAR_MAX_HEIGHT - 2.0 * BAR_FONT_PADDING;
      var sw := metric(ROLES[i], bold, fontSize);
      var caption := Text(x + PADDING + (i - 1) as real * BeamWidth(width) + (BeamWidth(width) - sw) / 2.0,
                          y + PADDING + (BAR_MAX_HEIGHT - fontSize) / 2.0 + 1.0,
                          ROLES[i], bold, fontSize, if hasRole then White else Black);
      assert bar == BarRect(x, y, width, idx, i) && caption == BarLabel(x, y, width, idx, i, font, metric);
      cmds := cmds + [bar, caption];
      assert cmds == Bars(x, y, width, idx, font, metric, i);
      i := i + 1;
    }
    BarsLength(x, y, width, idx, font, metric, |ROLES| - 1);
  }

  /**
   * The bars share one baseline and height and tile the block's inner width
   * [x + padding, x + width - padding] left to right without gaps; bar i is
   * green exactly when i <= idx, so the green bars are a prefix of length
   * min(idx, 4).
   */
  lemma BarsTileInnerWidth(x: real, y: real, width: real, idx: nat)
    ensures BarRect(x, y, width, idx, 1).x == x + PADDING
    ensures forall i :: 1 <= i < |ROLES| - 1 ==>
      BarRect(x, y, width, idx, i).x + BarRect(x, y, width, idx, i).w == BarRect(x, y, width, idx, i + 1).x
    ensures BarRect(x, y, width, idx, 4).x + BarRect(x, y, width, idx, 4).w == x + width - PADDING
    ensures forall i :: 1 <= i < |ROLES| ==>
      BarRect(x, y, width, idx, i).y == y + PADDING && BarRect(x, y, width, idx, i).h == BAR_MAX_HEIGHT
    ensures forall i :: 1 <= i < |ROLES| ==> (BarRect(x, y, width, idx, i).color == Green <==> i <= idx)
  {
  }

  // ---------------------------------------------------------------- the whole block

  /** __write_name: last name (bold) on top, first name one first-name size below. */
  function NameCommands(x: real, y: real, height: real, person: Person, font: string): seq<Command>
  {
    var lastNameY := y + height - PADDING - LAST_NAME_SIZE;
    [Text(x + PADDING, lastNameY, person.lastName, font + "-Bold", LAST_NAME_SIZE, Black),
     Text(x + PADDING, lastNameY - FIRST_NAME_SIZE, person.firstName, font, FIRST_NAME_SIZE, Black)]
  }

  /** The trainee label drawn in place of the bars. */
  function TraineeLabel(x: real, y: real, font: string): Command
  {
    Text(x + PADDING, y + PADDING, TRAINEE_LABEL, font + "-Bold", FIRST_NAME_SIZE, Coral)
  }

  /** __draw_leading_qualification_indicator: bars when a role is held, else the trainee label. */
  function Indicator(x: real, y: real, width: real, person: Person, font: string, metric: Metric): seq<Command>
  {
    match HighestRoleIdx(person.qualifications)
    case Some(idx) => Bars(x, y, width, idx, font, metric, |ROLES| - 1)
    case None => [TraineeLabel(x, y, font)]
  }

  /** The fill colour the indicator leaves set: that of the last thing it wrote. */
  function ColorAfterIndicator(person: Person): Color
  {
    match HighestRoleIdx(person.qualifications)
    case Some(idx) => if idx >= |ROLES| - 1 then White else Black
    case None => Coral
  }

  /** The personnel id, right-aligned at the inner right edge above the bars. */
  function PersonnelIdText(x: real, y: real, width: real, person: Person, font: string, metric: Metric): Command
    requires person.personnelId.Some?
  {
    var id := person.personnelId.value;
    var sw := metric(id, font, PERSONNEL_ID_SIZE);
    Text(x + width - PADDING - sw, y + BAR_MAX_HEIGHT + 2.0 * PADDING, id, font, PERSONNEL_ID_SIZE,
         ColorAfterIndicator(person))
  }

  /**
   * draw, with the personnel id read from the field the person record has
   * (personnel_id): the names, the indicator, then the id when present.
   */
  function Commands(x: real, y: real, width: real, height: real, person: Person, font: string,
                    metric: Metric): (d: Drawn)
    ensures d.err.None?
    ensures |d.cmds| >= 3
    ensures d.cmds[0].Text? && d.cmds[0].text == person.lastName
    ensures d.cmds[1].Text? && d.cmds[1].text == person.firstName
    ensures d.cmds[0].x == d.cmds[1].x == x + PADDING
    ensures d.cmds[0].y + d.cmds[0].size + PADDING == y + height
    ensures d.cmds[1].y == d.cmds[0].y - FIRST_NAME_SIZE
    ensures HighestRoleIdx(person.qualifications).None? ==>
      d.cmds[2] == TraineeLabel(x, y, font) && |d.cmds| == 3 + (if Present(person.personnelId) then 1 else 0)
    ensures HighestRoleIdx(person.qualifications).Some? ==>
      && |d.cmds| == 2 + 2 * (|ROLES| - 1) + (if Present(person.personnelId) then 1 else 0)
      && d.cmds[2..2 * |ROLES|] == Bars(x, y, width, HighestRoleIdx(person.qualifications).value, font, metric, |ROLES| - 1)
    ensures Present(person.personnelId) ==>
      var last := d.cmds[|d.cmds| - 1];
      && last.Text? && last.text == person.personnelId.value
      && last.x + metric(last.text, font, PERSONNEL_ID_SIZE) == x + width - PADDING
  {
    var names := NameCommands(x, y, height, person, font);
    var shown := names + Indicator(x, y, width, person, font, metric);
    var r := Drawn(shown + (if Present(person.personnelId)
                            then [PersonnelIdText(x, y, width, person, font, metric)] else []), None);
    assert r.cmds[0] == names[0] && r.cmds[1] == names[1];
    if HighestRoleIdx(person.qualifications).Some? then
      var bars := Bars(x, y, width, HighestRoleIdx(person.qualifications).value, font, metric, |ROLES| - 1);
      BarsLength(x, y, width, HighestRoleIdx(person.qualifications).value, font, metric, |ROLES| - 1);
      assert r.cmds[2..2 * |ROLES|] == bars by {
        assert shown == names + bars;
      }
      r
    else
      r
  }

  /**
   * With a role held, the name block shows every bar after the names: bar
   * i's rectangle at 2i and its centred label right after it.
   */
  lemma CommandsShowBars(x: real, y: real, width: real, height: real, person: Person, font: string,
                         metric: Metric, i: nat)
    requires HighestRoleIdx(person.qualifications).Some? && 1 <= i < |ROLES|
    ensures var d := Commands(x, y, width, height, person, font, metric);
      var idx := HighestRoleIdx(person.qualifications).value;
      && d.cmds[2 * i] == BarRect(x, y, width, idx, i)
      && d.cmds[2 * i + 1] == BarLabel(x, y, width, idx, i, font, metric)
  {
    var d := Commands(x, y, width, height, person, font, metric);
    var idx := HighestRoleIdx(person.qualifications).value;
    BarsAt(x, y, width, idx, font, metric, |ROLES| - 1, i);
    assert d.cmds[2 * i] == d.cmds[2..2 * |ROLES|][2 * (i - 1)];
    assert d.cmds[2 * i + 1] == d.cmds[2..2 * |ROLES|][2 * i - 1];
  }

  /** draw: the block's commands, computed with the bar loop. */
  method Draw(x: real, y: real, width: real, height: real, person: Person, font: string, metric: Metric)
    returns (d: Drawn)
    ensures d == Commands(x, y, width, height, person, font, metric)
  {
    var shown := NameCommands(x, y, height, person, font);
    var idx := HighestRoleIdx(person.qualifications);
    if idx.Some? {
      var bars := DrawQualificationBars(x, y, width, idx.value, font, metric);
      shown := shown + bars;
    } else {
      shown := shown + [TraineeLabel(x, y, font)];
    }
    if Present(person.personnelId) {
      shown := shown + [PersonnelIdText(x, y, width, person, font, metric)];
    }
    d := Drawn(shown, None);
  }

  /**
   * draw exactly as written: it tests `person.personnel_nr`, a field the
   * person record does not have, so it raises after the names and the
   * indicator are drawn.
   */
  function DrawAsWritten(x: real, y: real, width: real, height: real, person: Person, font: string,
                         metric: Metric): (d: Drawn)
    ensures d.err == Some(NoSuchAttribute("personnel_nr"))
    ensures d.cmds + (if Present(person.personnelId)
                      then [PersonnelIdText(x, y, width, person, font, metric)] else [])
            == Commands(x, y, width, height, person, font, metric).cmds
  {
    Drawn(NameCommands(x, y, height, person, font) + Indicator(x, y, width, person, font, metric),
          Some(NoSuchAttribute("personnel_nr")))
  }

  /**
   * For every person the written code fails where the corrected one
   * completes; what it draws before failing is the start of the corrected
   * drawing, and all of it exactly when there is no personnel id to draw.
   */
  lemma AsWrittenFailsForEveryPerson(x: real, y: real, width: real, height: real, person: Person,
                                     font: string, metric: Metric)
    ensures DrawAsWritten(x, y, width, height, person, font, metric).err.Some?
    ensures Commands(x, y, width, height, person, font, metric).err.None?
    ensures DrawAsWritten(x, y, width, height, person, font, metric).cmds
            <= Commands(x, y, width, height, person, font, metric).cmds
    ensures (DrawAsWritten(x, y, width, height, person, font, metric).cmds
             == Commands(x, y, width, height, person, font, metric).cmds) <==> !Present(person.personnelId)
  {
    var asWritten := DrawAsWritten(x, y, width, height, person, font, metric).cmds;
    var corrected := Commands(x, y, width, height, person, font, metric).cmds;
    if Present(person.personnelId) {
      assert |corrected| == |asWritten| + 1;
    } else {
      assert asWritten + [] == asWritten;
    }
    assert corrected[..|asWritten|] == asWritten;
  }
}
