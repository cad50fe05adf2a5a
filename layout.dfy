/**
 * The width-resolution and packing rules of a card (src/card/Card.py,
 * draw): blocks without a width share what the others leave of the content
 * width, every width must then be truthy, and the blocks are laid left to
 * right, each starting at its left neighbour's right edge.
 */
module Layout {
  import opened Wrappers

  /** Python truthiness of an optional width: present and not zero. */
  predicate Truthy(w: Option<real>)
  {
    w.Some? && w.value != 0.0
  }

  predicate AllTruthy(ws: seq<Option<real>>)
  {
    forall i :: 0 <= i < |ws| ==> Truthy(ws[i])
  }

  /** The sum over the widths that are truthy (the others are skipped). */
  function UsedWidth(ws: seq<Option<real>>): real
  {
    if |ws| == 0 then 0.0
    else UsedWidth(ws[..|ws| - 1]) + (if Truthy(ws[|ws| - 1]) then ws[|ws| - 1].value else 0.0)
  }

  /** The sum over every width that is present. */
  function Total(ws: seq<Option<real>>): real
  {
    if |ws| == 0 then 0.0
    else Total(ws[..|ws| - 1]) + (if ws[|ws| - 1].Some? then ws[|ws| - 1].value else 0.0)
  }

  /** The number of blocks without a width. */
  function FlexCount(ws: seq<Option<real>>): (n: nat)
    ensures n <= |ws|
    ensures n == 0 <==> forall i :: 0 <= i < |ws| ==> ws[i].Some?
  {
    if |ws| == 0 then 0
    else FlexCount(ws[..|ws| - 1]) + (if ws[|ws| - 1].None? then 1 else 0)
  }

  /** The width each block without one receives; nothing is divided when there is none. */
  function Share(ws: seq<Option<real>>, contentWidth: real): (r: real)
    ensures FlexCount(ws) > 0 ==> r * FlexCount(ws) as real == contentWidth - UsedWidth(ws)
  {
    if FlexCount(ws) == 0 then 0.0 else (contentWidth - UsedWidth(ws)) / FlexCount(ws) as real
  }

  /** Gives every missing width the value v and keeps the others. */
  function Fill(ws: seq<Option<real>>, v: real): (r: seq<Option<real>>)
    ensures |r| == |ws|
    ensures forall i :: 0 <= i < |ws| ==> r[i] == (if ws[i].None? then Some(v) else ws[i])
  {
    if |ws| == 0 then []
    else Fill(ws[..|ws| - 1], v) + [if ws[|ws| - 1].None? then Some(v) else ws[|ws| - 1]]
  }

  /** The widths after the sharing step of the card's draw. */
  function Resolve(ws: seq<Option<real>>, contentWidth: real): (r: seq<Option<real>>)
    ensures |r| == |ws|
    ensures forall i :: 0 <= i < |r| ==> r[i].Some?
    ensures forall i :: 0 <= i < |ws| && ws[i].Some? ==> r[i] == ws[i]
  {
    Fill(ws, Share(ws, contentWidth))
  }

  /** Skipping the zero widths does not change the sum. */
  lemma {:induction false} UsedIsTotal(ws: seq<Option<real>>)
    ensures UsedWidth(ws) == Total(ws)
  {
    if |ws| > 0 {
      UsedIsTotal(ws[..|ws| - 1]);
    }
  }

  /** n copies of v added up. */
  function Times(n: nat, v: real): real
  {
    if n == 0 then 0.0 else Times(n - 1, v) + v
  }

  lemma {:induction false} TimesIsProduct(n: nat, v: real)
    ensures Times(n, v) == n as real * v
  {
    if n > 0 {
      TimesIsProduct(n - 1, v);
      assert (n - 1) as real * v + v == n as real * v;
    }
  }

  lemma {:induction false} TotalOfFill(ws: seq<Option<real>>, v: real)
    ensures Total(Fill(ws, v)) == Total(ws) + Times(FlexCount(ws), v)
  {
    if |ws| > 0 {
      var init, last := ws[..|ws| - 1], ws[|ws| - 1];
      var filled := Fill(ws, v);
      TotalOfFill(init, v);
      assert filled[..|ws| - 1] == Fill(init, v);
      assert Total(filled) == Total(Fill(init, v)) + (if filled[|ws| - 1].Some? then filled[|ws| - 1].value else 0.0);
      assert Total(ws) == Total(init) + (if last.Some? then last.value else 0.0);
      if last.None? {
        assert FlexCount(ws) == FlexCount(init) + 1;
        assert Times(FlexCount(ws), v) == Times(FlexCount(init), v) + v;
        assert filled[|ws| - 1] == Some(v);
      } else {
        assert FlexCount(ws) == FlexCount(init);
        assert filled[|ws| - 1] == last;
      }
    }
  }

  /**
   * When some block has no width, the resolved widths add up to the
   * content width exactly.
   */
  lemma {:induction false} ResolvedWidthsFillContent(ws: seq<Option<real>>, contentWidth: real)
    requires FlexCount(ws) > 0
    ensures Total(Resolve(ws, contentWidth)) == contentWidth
  {
    var share := Share(ws, contentWidth);
    TotalOfFill(ws, share);
    SharesMakeUpFreeWidth(ws, contentWidth);
    UsedIsTotal(ws);
  }

  /** The shares of the blocks without a width add up to the free width. */
  lemma SharesMakeUpFreeWidth(ws: seq<Option<real>>, contentWidth: real)
    requires FlexCount(ws) > 0
    ensures Times(FlexCount(ws), Share(ws, contentWidth)) == contentWidth - UsedWidth(ws)
  {
    var n, share := FlexCount(ws), Share(ws, contentWidth);
    TimesIsProduct(n, share);
    assert n as real * share == share * n as real;
  }

  /** Each block without a width receives the same share, and only those blocks change. */
  lemma {:induction false} FlexBlocksShareEqually(ws: seq<Option<real>>, contentWidth: real, i: nat, j: nat)
    requires i < |ws| && j < |ws| && ws[i].None? && ws[j].None?
    ensures Resolve(ws, contentWidth)[i] == Resolve(ws, contentWidth)[j]
    ensures Resolve(ws, contentWidth)[i].value * FlexCount(ws) as real == contentWidth - Total(ws)
  {
    assert Resolve(ws, contentWidth)[i] == Some(Share(ws, contentWidth));
    assert FlexCount(ws) > 0;
    assert Share(ws, contentWidth) * FlexCount(ws) as real == contentWidth - UsedWidth(ws);
    UsedIsTotal(ws);
  }

  /** With every width present, resolution changes nothing. */
  lemma ResolveWithoutFlexIsIdentity(ws: seq<Option<real>>, contentWidth: real)
    requires FlexCount(ws) == 0
    ensures Resolve(ws, contentWidth) == ws
  {
  }

  /**
   * The assertion after the sharing step fails exactly when a block came
   * with a zero width or the share itself is zero. A negative share passes.
   */
  lemma ResolutionFailsIff(ws: seq<Option<real>>, contentWidth: real)
    ensures !AllTruthy(Resolve(ws, contentWidth)) <==>
      (exists i :: 0 <= i < |ws| && ws[i] == Some(0.0)) || (FlexCount(ws) > 0 && Share(ws, contentWidth) == 0.0)
  {
    var r := Resolve(ws, contentWidth);
    if FlexCount(ws) > 0 && Share(ws, contentWidth) == 0.0 {
      var i :| 0 <= i < |ws| && ws[i].None?;
      assert !Truthy(r[i]);
    }
    if exists i :: 0 <= i < |ws| && ws[i] == Some(0.0) {
      var i :| 0 <= i < |ws| && ws[i] == Some(0.0);
      assert !Truthy(r[i]);
    }
  }

  /** The widths themselves, once every block has one. */
  function Values(ws: seq<Option<real>>): (vs: seq<real>)
    requires forall i :: 0 <= i < |ws| ==> ws[i].Some?
    ensures |vs| == |ws|
    ensures forall i :: 0 <= i < |ws| ==> vs[i] == ws[i].value
  {
    seq(|ws|, i requires 0 <= i < |ws| => ws[i].value)
  }

  lemma {:induction false} TotalIsSumOfValues(ws: seq<Option<real>>)
    requires forall i :: 0 <= i < |ws| ==> ws[i].Some?
    ensures Total(ws) == Sum(Values(ws))
  {
    if |ws| > 0 {
      TotalIsSumOfValues(ws[..|ws| - 1]);
      assert Values(ws)[..|ws| - 1] == Values(ws[..|ws| - 1]);
    }
  }

  function Sum(ws: seq<real>): real
  {
    if |ws| == 0 then 0.0 else Sum(ws[..|ws| - 1]) + ws[|ws| - 1]
  }

  /** Blocks laid out left to right: the first at x0, each next one at its neighbour's right edge. */
  predicate Packed(x0: real, xs: seq<real>, ws: seq<real>)
  {
    && |xs| == |ws|
    && (|xs| > 0 ==> xs[0] == x0)
    && forall i :: 0 <= i < |xs| - 1 ==> xs[i + 1] == xs[i] + ws[i]
  }

  /** Packed blocks start where the widths before them end. */
  lemma {:induction false} PackedStart(x0: real, xs: seq<real>, ws: seq<real>, i: nat)
    requires Packed(x0, xs, ws) && i < |xs|
    ensures xs[i] == x0 + Sum(ws[..i])
  {
    if i > 0 {
      PackedStart(x0, xs, ws, i - 1);
      assert ws[..i][..i - 1] == ws[..i - 1];
    }
  }

  /** The right edge of the last packed block is x0 plus the sum of the widths. */
  lemma PackedEnd(x0: real, xs: seq<real>, ws: seq<real>)
    requires Packed(x0, xs, ws) && |xs| > 0
    ensures xs[|xs| - 1] + ws[|ws| - 1] == x0 + Sum(ws)
  {
    PackedStart(x0, xs, ws, |xs| - 1);
    assert ws[..|ws| - 1] == ws[..|ws|][..|ws| - 1];
    assert ws == ws[..|ws|];
  }

  /** Packed blocks never overlap when no width is negative. */
  lemma PackedInOrder(x0: real, xs: seq<real>, ws: seq<real>, i: nat, j: nat)
    requires Packed(x0, xs, ws) && i < j < |xs|
    requires forall k :: 0 <= k < |ws| ==> ws[k] >= 0.0
    ensures xs[i] + ws[i] <= xs[j]
  {
    if j > i + 1 {
      PackedInOrder(x0, xs, ws, i, j - 1);
    }
  }
}
