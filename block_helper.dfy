/**
 * The legacy layout helper (src/Helper/BlockHelper.py): blocks kept in an
 * ordered dictionary by name; placing a block at some x walks leftwards
 * and gives every previous block the width that makes it end exactly where
 * its right neighbour starts.
 */
module BlockHelper {
  import opened Wrappers

  /** A helper block: position and width, each possibly still unknown. */
  datatype HelperBlock = HelperBlock(xPos: Option<real>, width: Option<real>)

  /** right_edge: x + width when both are known. */
  function RightEdge(b: HelperBlock): (r: Option<real>)
    ensures r.None? <==> b.xPos.None? || b.width.None?
    ensures r.Some? ==> r.value - b.width.value == b.xPos.value
  {
    if b.xPos.None? || b.width.None? then None else Some(b.xPos.value + b.width.value)
  }

  /** Python list indexing: an index from -|s| up to |s| - 1 is valid, a negative one counts from the end. */
  predicate InRange(i: int, n: nat)
  {
    -(n as int) <= i < n
  }

  /** Every block from lo through hi has a position. */
  predicate PositionedFrom(es: seq<HelperBlock>, lo: int, hi: int)
    requires hi < |es|
  {
    forall m :: lo <= m <= hi && 0 <= m ==> es[m].xPos.Some?
  }

  /** Block k - 1 has no position while k through hi all have one: the walk from hi fails at k. */
  predicate FailsAt(es: seq<HelperBlock>, k: int, hi: int)
    requires hi < |es|
  {
    0 < k <= hi && es[k - 1].xPos.None? && PositionedFrom(es, k, hi)
  }

  /**
   * update_prev_block(i) on the list of blocks: the new blocks and the error
   * raised, if any. The walk stops at an index that is not positive or at a
   * block without a position; a left neighbour without a position cannot be
   * subtracted from. Widths set before an error stay set.
   */
  function UpdatePrev(es: seq<HelperBlock>, i: int): (r: (seq<HelperBlock>, Option<Error>))
    ensures r.1 == Some(IndexOutOfRange) <==> !InRange(i, |es|)
    ensures |r.0| == |es|
    ensures forall j :: 0 <= j < |es| ==> r.0[j].xPos == es[j].xPos
    ensures forall j :: i <= j < |es| && 0 <= j ==> r.0[j] == es[j]
    decreases if i <= 0 then 0 else i
  {
    if !InRange(i, |es|) then (es, Some(IndexOutOfRange))
    else if i <= 0 || es[i].xPos.None? then (es, None)
    else if es[i - 1].xPos.None? then (es, Some(UnpositionedBlock))
    else
      var prev := es[i - 1].(width := Some(es[i].xPos.value - es[i - 1].xPos.value));
      UpdatePrev(es[i - 1 := prev], i - 1)
  }

  /**
   * The walk reaches block j < i exactly when j + 1 through i are all
   * positioned: then j ends where j + 1 starts (when j itself has a position,
   * and otherwise the walk fails there); a block it does not reach is unchanged.
   */
  lemma {:induction false} UpdatePrevContiguous(es: seq<HelperBlock>, i: int, j: nat)
    requires 0 <= i < |es| && j < i
    ensures PositionedFrom(es, j + 1, i) && es[j].xPos.Some? ==>
      && UpdatePrev(es, i).0[j].width == Some(es[j + 1].xPos.value - es[j].xPos.value)
      && RightEdge(UpdatePrev(es, i).0[j]) == es[j + 1].xPos
    ensures PositionedFrom(es, j + 1, i) && es[j].xPos.None? ==> UpdatePrev(es, i).0[j] == es[j]
    ensures !PositionedFrom(es, j + 1, i) ==> UpdatePrev(es, i).0[j] == es[j]
    decreases i
  {
    var r := UpdatePrev(es, i).0;
    if es[i].xPos.None? {
      assert !PositionedFrom(es, j + 1, i);
    } else if es[i - 1].xPos.None? {
      if j + 1 < i {
        assert !PositionedFrom(es, j + 1, i);
      } else {
        assert PositionedFrom(es, j + 1, i);
      }
    } else {
      var prev := es[i - 1].(width := Some(es[i].xPos.value - es[i - 1].xPos.value));
      var next := es[i - 1 := prev];
      if j == i - 1 {
        assert r[j] == prev;
        assert PositionedFrom(es, j + 1, i);
      } else {
        UpdatePrevContiguous(next, i - 1, j);
        assert PositionedFrom(es, j + 1, i) <==> PositionedFrom(next, j + 1, i - 1) by {
          assert forall m :: j + 1 <= m <= i - 1 ==> next[m].xPos == es[m].xPos;
        }
      }
    }
  }

  /**
   * The walk from a valid positive index fails exactly when it meets a
   * block without a position whose right neighbour, and every block up to
   * i, has one.
   */
  lemma {:induction false} UpdatePrevFailsIff(es: seq<HelperBlock>, i: int)
    requires 0 <= i < |es|
    ensures UpdatePrev(es, i).1.Some? <==>
      exists k :: FailsAt(es, k, i)
    ensures UpdatePrev(es, i).1.Some? ==> UpdatePrev(es, i).1 == Some(UnpositionedBlock)
    decreases i
  {
    if i == 0 {
    } else if es[i].xPos.None? {
      assert forall k :: 0 < k <= i ==> !PositionedFrom(es, k, i);
    } else if es[i - 1].xPos.None? {
      assert FailsAt(es, i, i);
    } else {
      var prev := es[i - 1].(width := Some(es[i].xPos.value - es[i - 1].xPos.value));
      var next := es[i - 1 := prev];
      UpdatePrevFailsIff(next, i - 1);
      assert forall m :: 0 <= m < |es| ==> next[m].xPos == es[m].xPos;
      if exists k :: FailsAt(es, k, i) {
        var k :| FailsAt(es, k, i);
        assert k < i;
        assert FailsAt(next, k, i - 1);
      }
      if UpdatePrev(next, i - 1).1.Some? {
        var k :| FailsAt(next, k, i - 1);
        assert FailsAt(es, k, i);
      }
    }
  }

  /** With every block up to i positioned, the walk succeeds and leaves the blocks 0..i contiguous. */
  lemma AllPositionedMakesContiguous(es: seq<HelperBlock>, i: int)
    requires 0 <= i < |es| && PositionedFrom(es, 0, i)
    ensures UpdatePrev(es, i).1.None?
    ensures forall j :: 0 <= j < i ==> RightEdge(UpdatePrev(es, i).0[j]) == UpdatePrev(es, i).0[j + 1].xPos
  {
    UpdatePrevFailsIff(es, i);
    forall j | 0 <= j < i
      ensures RightEdge(UpdatePrev(es, i).0[j]) == UpdatePrev(es, i).0[j + 1].xPos
    {
      UpdatePrevContiguous(es, i, j);
    }
  }

  /** list(keys).index(name): the first position holding the name. */
  function IndexOf(names: seq<string>, name: string): (i: nat)
    requires name in names
    ensures i < |names| && names[i] == name
    ensures forall j :: 0 <= j < i ==> names[j] != name
  {
    if names[0] == name then 0 else 1 + IndexOf(names[1..], name)
  }

  /** The dictionary of named blocks, in insertion order. */
  class BlockTable {
    const names: seq<string>
    var blocks: seq<HelperBlock>

    /** One block per name, and no name twice, as the keys of a dictionary. */
    predicate Valid()
      reads this
    {
      && |names| == |blocks|
      && forall j, k :: 0 <= j < k < |names| ==> names[j] != names[k]
    }

    constructor (names: seq<string>, blocks: seq<HelperBlock>)
      requires |names| == |blocks|
      requires forall j, k :: 0 <= j < k < |names| ==> names[j] != names[k]
      ensures Valid() && this.names == names && this.blocks == blocks
    {
      this.names := names;
      this.blocks := blocks;
    }

    /** BlockHelper.update_prev_block, walking leftwards by recursion. */
    method UpdatePrevBlock(i: int) returns (err: Option<Error>)
      requires Valid()
      modifies this
      ensures Valid()
      ensures (blocks, err) == UpdatePrev(old(blocks), i)
      decreases if i <= 0 then 0 else i
    {
      if !InRange(i, |blocks|) {
        return Some(IndexOutOfRange);
      }
      if i <= 0 || blocks[i].xPos.None? {
        return None;
      }
      if blocks[i - 1].xPos.None? {
        return Some(UnpositionedBlock);
      }
      var prev := blocks[i - 1].(width := Some(blocks[i].xPos.value - blocks[i - 1].xPos.value));
      blocks := blocks[i - 1 := prev];
      err := UpdatePrevBlock(i - 1);
    }

    /**
     * BlockHelper.set_x: positions the named block, then propagates widths
     * leftwards from it. An unknown name raises before anything changes.
     */
    method SetX(name: string, x: real) returns (err: Option<Error>)
      requires Valid()
      modifies this
      ensures Valid()
      ensures name !in names ==> err == Some(MissingKey(name)) && blocks == old(blocks)
      ensures name in names ==>
        var i := IndexOf(names, name);
        (blocks, err) == UpdatePrev(old(blocks)[i := old(blocks)[i].(xPos := Some(x))], i)
    {
      if name !in names {
        return Some(MissingKey(name));
      }
      var i := IndexOf(names, name);
      blocks := blocks[i := blocks[i].(xPos := Some(x))];
      err := UpdatePrevBlock(i);
    }
  }

  /**
   * After set_x on a block whose left neighbours all have positions, every
   * block before it ends where its right neighbour starts, and the named
   * block sits at x.
   */
  lemma SetXMakesContiguous(es: seq<HelperBlock>, i: nat, x: real)
    requires i < |es| && PositionedFrom(es, 0, i - 1)
    ensures var r := UpdatePrev(es[i := es[i].(xPos := Some(x))], i);
      && r.1.None?
      && r.0[i].xPos == Some(x)
      && forall j :: 0 <= j < i ==> RightEdge(r.0[j]) == r.0[j + 1].xPos
  {
    var placed := es[i := es[i].(xPos := Some(x))];
    assert PositionedFrom(placed, 0, i);
    AllPositionedMakesContiguous(placed, i);
  }
}
