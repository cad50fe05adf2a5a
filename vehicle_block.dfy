/**
 * The vehicle column (src/blocks/VehicleInstructionsBlock.py): one box per
 * vehicle instruction, stacked top to bottom, filled when the person holds
 * the instruction; the column is as wide as the longest vehicle name.
 */
module VehicleBlocks {
  import opened Wrappers
  import opened Canvas
  import opened Persons
  import opened Blocks

  const BOX_PADDING: real := 2.0

  /** box_height: the height shared evenly by the instructions; no instructions divides by zero. */
  function BoxHeight(height: real, n: nat): (r: Result<real>)
    ensures r.Failure? <==> n == 0
    ensures r.Failure? ==> r.error == ZeroDivision
    ensures r.Success? ==> r.value * n as real == height
  {
    if n == 0 then Failure(ZeroDivision) else Success(height / n as real)
  }

  /** The text width of the k-th vehicle name. */
  function NameWidth(instrs: seq<Instruction>, k: nat, font: string, size: real, metric: Metric): real
    requires k < |instrs|
  {
    metric(instrs[k].vehicle, font, size)
  }

  /** The widest vehicle name: at least every name's width and equal to one of them. */
  function MaxNameWidth(instrs: seq<Instruction>, font: string, size: real, metric: Metric): (m: real)
    requires |instrs| > 0
    ensures forall k :: 0 <= k < |instrs| ==> NameWidth(instrs, k, font, size, metric) <= m
    ensures exists k :: 0 <= k < |instrs| && m == NameWidth(instrs, k, font, size, metric)
  {
    var last := NameWidth(instrs, |instrs| - 1, font, size, metric);
    if |instrs| == 1 then last
    else
      var prefix := instrs[..|instrs| - 1];
      var rest := MaxNameWidth(prefix, font, size, metric);
      assert forall k :: 0 <= k < |instrs| - 1 ==>
        NameWidth(prefix, k, font, size, metric) == NameWidth(instrs, k, font, size, metric);
      assert exists k :: 0 <= k < |instrs| && rest == NameWidth(instrs, k, font, size, metric) by {
        var j :| 0 <= j < |prefix| && rest == NameWidth(prefix, j, font, size, metric);
        assert rest == NameWidth(instrs, j, font, size, metric);
      }
      if rest < last then last else rest
  }

  /**
   * calculate_width: the longest name plus the padding on both sides; the
   * maximum of an empty list is an error.
   */
  function CalculateWidth(instrs: seq<Instruction>, font: string, size: real, metric: Metric): (r: Result<real>)
    ensures r.Failure? <==> |instrs| == 0
    ensures r.Failure? ==> r.error == EmptyMaximum
    ensures r.Success? ==>
      && (forall k :: 0 <= k < |instrs| ==> NameWidth(instrs, k, font, size, metric) + 2.0 * BOX_PADDING <= r.value)
      && (exists k :: 0 <= k < |instrs| && r.value == NameWidth(instrs, k, font, size, metric) + 2.0 * BOX_PADDING)
      && r.value >= 2.0 * BOX_PADDING
  {
    if |instrs| == 0 then Failure(EmptyMaximum)
    else Success(MaxNameWidth(instrs, font, size, metric) + 2.0 * BOX_PADDING)
  }

  /** The width does not depend on the order of the instructions. */
  lemma WidthIndependentOfOrder(a: seq<Instruction>, b: seq<Instruction>, font: string, size: real, metric: Metric)
    requires multiset(a) == multiset(b)
    ensures CalculateWidth(a, font, size, metric) == CalculateWidth(b, font, size, metric)
  {
    assert |a| == |multiset(a)| == |multiset(b)| == |b|;
    if |a| > 0 {
      var ra, rb := CalculateWidth(a, font, size, metric), CalculateWidth(b, font, size, metric);
      var ka :| 0 <= ka < |a| && ra.value == NameWidth(a, ka, font, size, metric) + 2.0 * BOX_PADDING;
      var kb :| 0 <= kb < |b| && rb.value == NameWidth(b, kb, font, size, metric) + 2.0 * BOX_PADDING;
      assert a[ka] in multiset(b);
      var jb :| 0 <= jb < |b| && b[jb] == a[ka];
      assert NameWidth(b, jb, font, size, metric) == NameWidth(a, ka, font, size, metric);
      assert b[kb] in multiset(a);
      var ja :| 0 <= ja < |a| && a[ja] == b[kb];
      assert NameWidth(a, ja, font, size, metric) == NameWidth(b, kb, font, size, metric);
    }
  }

  /**
   * __post_init__: box height, font size (box height minus the padding) and
   * the intrinsic width, which is measured at that font size.
   */
  function Setup(height: real, instrs: seq<Instruction>, font: string, metric: Metric): (r: Result<(BlockKind, real)>)
    ensures r.Failure? <==> |instrs| == 0
    ensures r.Failure? ==> r.error == ZeroDivision
    ensures r.Success? ==>
      var (kind, width) := r.value;
      && kind.VehicleKind?
      && kind.boxHeight * |instrs| as real == height
      && kind.fontSize + BOX_PADDING == kind.boxHeight
      && Success(width) == CalculateWidth(instrs, font, kind.fontSize, metric)
      && width > 0.0
  {
    match BoxHeight(height, |instrs|)
    case Failure(e) => Failure(e)
    case Success(boxHeight) =>
      var fontSize := boxHeight - BOX_PADDING;
      Success((VehicleKind(boxHeight, fontSize), CalculateWidth(instrs, font, fontSize, metric).value))
  }

  /** The bottom of the k-th box: boxes are stacked downwards from the top edge. */
  function BoxY(y: real, height: real, boxHeight: real, k: nat): real
  {
    y + height - (k + 1) as real * boxHeight
  }

  /** The k-th box and its vehicle name. */
  function BoxCommands(x: real, y: real, width: real, height: real, boxHeight: real, fontSize: real,
                       font: string, k: nat, instr: Instruction): seq<Command>
  {
    var boxY := BoxY(y, height, boxHeight, k);
    [Rect(x, boxY, width, boxHeight, if instr.value then Some(DeepSkyBlue) else None),
     Text(x + BOX_PADDING, boxY + BOX_PADDING, instr.vehicle, font, fontSize, Black)]
  }

  /** The commands of the first n boxes. */
  function Boxes(x: real, y: real, width: real, height: real, boxHeight: real, fontSize: real,
                 font: string, instrs: seq<Instruction>, n: nat): seq<Command>
    requires n <= |instrs|
  {
    if n == 0 then []
    else Boxes(x, y, width, height, boxHeight, fontSize, font, instrs, n - 1)
         + BoxCommands(x, y, width, height, boxHeight, fontSize, font, n - 1, instrs[n - 1])
  }

  lemma {:induction false} BoxesAt(x: real, y: real, width: real, height: real, boxHeight: real, fontSize: real,
                                   font: string, instrs: seq<Instruction>, n: nat, k: nat)
    requires n <= |instrs| && k < n
    ensures |Boxes(x, y, width, height, boxHeight, fontSize, font, instrs, n)| == 2 * n
    ensures Boxes(x, y, width, height, boxHeight, fontSize, font, instrs, n)[2 * k .. 2 * k + 2]
            == BoxCommands(x, y, width, height, boxHeight, fontSize, font, k, instrs[k])
  {
    BoxesLength(x, y, width, height, boxHeight, fontSize, font, instrs, n - 1);
    if k < n - 1 {
      BoxesAt(x, y, width, height, boxHeight, fontSize, font, instrs, n - 1, k);
    }
  }

  lemma {:induction false} BoxesLength(x: real, y: real, width: real, height: real, boxHeight: real,
                                       fontSize: real, font: string, instrs: seq<Instruction>, n: nat)
    requires n <= |instrs|
    ensures |Boxes(x, y, width, height, boxHeight, fontSize, font, instrs, n)| == 2 * n
  {
    if n > 0 {
      BoxesLength(x, y, width, height, boxHeight, fontSize, font, instrs, n - 1);
    }
  }

  /** draw: walks down from the top, one box per instruction, in list order. */
  method Draw(x: real, y: real, width: real, height: real, boxHeight: real, fontSize: real,
              font: string, instrs: seq<Instruction>) returns (cmds: seq<Command>)
    ensures cmds == Boxes(x, y, width, height, boxHeight, fontSize, font, instrs, |instrs|)
  {
    var yCurr := y + height - boxHeight;
    cmds := [];
    var k := 0;
    while k < |instrs|
      invariant 0 <= k <= |instrs|
      invariant yCurr == BoxY(y, height, boxHeight, k)
      invariant cmds == Boxes(x, y, width, height, boxHeight, fontSize, font, instrs, k)
    {
      var instr := instrs[k];
      cmds := cmds + [Rect(x, yCurr, width, boxHeight, if instr.value then Some(DeepSkyBlue) else None),
                      Text(x + BOX_PADDING, yCurr + BOX_PADDING, instr.vehicle, font, fontSize, Black)];
      yCurr := yCurr - boxHeight;
      k := k + 1;
    }
  }

  /**
   * One full-width rectangle per instruction, in list order, filled exactly
   * when the person holds it, with the vehicle name inset by the padding.
   */
  lemma OneBoxPerInstruction(x: real, y: real, width: real, height: real, boxHeight: real, fontSize: real,
                             font: string, instrs: seq<Instruction>, k: nat)
    requires k < |instrs|
    ensures var cmds := Boxes(x, y, width, height, boxHeight, fontSize, font, instrs, |instrs|);
      && |cmds| == 2 * |instrs|
      && cmds[2 * k].Rect? && cmds[2 * k].x == x && cmds[2 * k].w == width && cmds[2 * k].h == boxHeight
      && cmds[2 * k].y == y + height - (k + 1) as real * boxHeight
      && (cmds[2 * k].fill.Some? <==> instrs[k].value)
      && cmds[2 * k + 1] == Text(x + BOX_PADDING, cmds[2 * k].y + BOX_PADDING, instrs[k].vehicle, font, fontSize, Black)
  {
    var cmds := Boxes(x, y, width, height, boxHeight, fontSize, font, instrs, |instrs|);
    BoxesAt(x, y, width, height, boxHeight, fontSize, font, instrs, |instrs|, k);
    assert cmds[2 * k] == cmds[2 * k .. 2 * k + 2][0];
    assert cmds[2 * k + 1] == cmds[2 * k .. 2 * k + 2][1];
  }

  /** With box height = height / n, the boxes tile [y, y + height] top to bottom. */
  lemma BoxesTileHeight(y: real, height: real, boxHeight: real, n: nat)
    requires n > 0 && boxHeight * n as real == height
    ensures BoxY(y, height, boxHeight, 0) + boxHeight == y + height
    ensures forall k :: 0 <= k < n - 1 ==> BoxY(y, height, boxHeight, k + 1) + boxHeight == BoxY(y, height, boxHeight, k)
    ensures BoxY(y, height, boxHeight, n - 1) == y
  {
  }
}
