/**
 * Placing the cards of a request on pages (main.py, create_pdf). On A4
 * paper the cards fill a landscape page row by row from the top left
 * corner, wrap to a new row when the next card would cross the right
 * margin and start a new page when a row would begin below the bottom
 * margin; on label paper every card gets a page of its own.
 */
module Pages {
  import opened Persons
  import opened CardDimensions

  /** landscape(A4): 297 mm by 210 mm at 72 points per inch. */
  const PAGE_WIDTH: real := 106920.0 / 127.0
  const PAGE_HEIGHT: real := 75600.0 / 127.0
  const EDGE_MARGIN: real := 15.0
  const GRID_MARGIN_Y: real := 0.0
  const CARD_WIDTH_MM: real := 100.0
  const CARD_HEIGHT_MM: real := 22.45
  const TOP_BOTTOM_PADDING_MM: real := 1.725

  /** The card's size in points, as the driver computes it. */
  const CARD_WIDTH: real := CARD_WIDTH_MM * MM_TO_PT
  const CARD_HEIGHT: real := CARD_HEIGHT_MM * MM_TO_PT

  /** The y of the first row on a page: one card height below the top margin. */
  const TOP_ROW: real := PAGE_HEIGHT - CARD_HEIGHT - EDGE_MARGIN

  /** A page number (0 for the first page) and a position on it. */
  datatype Cursor = Cursor(page: nat, x: real, y: real)

  /** One Card(canvas, person, x, y, ...).draw() call: whose card, and where. */
  datatype Placement = Placement(person: Person, at: Cursor)

  function Start(): Cursor
  {
    Cursor(0, EDGE_MARGIN, TOP_ROW)
  }

  /** Before drawing: a row below the bottom margin moves to the top of a new page. */
  function Place(c: Cursor): (p: Cursor)
    ensures c.y >= EDGE_MARGIN ==> p == c
    ensures c.y < EDGE_MARGIN ==> p.page == c.page + 1 && p.x == EDGE_MARGIN && p.y == TOP_ROW
  {
    if c.y < EDGE_MARGIN then Cursor(c.page + 1, EDGE_MARGIN, TOP_ROW) else c
  }

  /** After drawing: one card width to the right, or the start of the next row down when the next card would not fit. */
  function Advance(c: Cursor): Cursor
  {
    var x := c.x + CARD_WIDTH;
    if x + CARD_WIDTH > PAGE_WIDTH - EDGE_MARGIN then Cursor(c.page, EDGE_MARGIN, c.y - (CARD_HEIGHT + GRID_MARGIN_Y))
    else Cursor(c.page, x, c.y)
  }

  /** The cursor after n cards. */
  function CursorAfter(n: nat): Cursor
  {
    if n == 0 then Start() else Advance(Place(CursorAfter(n - 1)))
  }

  /** Where the k-th card (counting from 0) is drawn. */
  function SlotOf(k: nat): Cursor
  {
    Place(CursorAfter(k))
  }

  /** The A4 placements: the k-th person's card at the k-th slot. */
  function A4Layout(persons: seq<Person>): (r: seq<Placement>)
    ensures |r| == |persons|
    ensures forall k :: 0 <= k < |persons| ==> r[k].person == persons[k]
    ensures forall k :: 0 <= k < |persons| ==> r[k].at == SlotOf(k)
  {
    seq(|persons|, k requires 0 <= k < |persons| => Placement(persons[k], SlotOf(k)))
  }

  /** The label placements: every card at the origin of its own page. */
  function LabelLayout(persons: seq<Person>): (r: seq<Placement>)
    ensures |r| == |persons|
    ensures forall k :: 0 <= k < |persons| ==> r[k].person == persons[k]
  {
    seq(|persons|, k requires 0 <= k < |persons| => Placement(persons[k], Cursor(k, 0.0, 0.0)))
  }

  /**
   * create_pdf: one card per person in input order. The page breaks are
   * the changes of page number between consecutive placements.
   */
  method CreatePdf(persons: seq<Person>, paperSize: string) returns (cards: seq<Placement>)
    ensures paperSize == "A4" ==> cards == A4Layout(persons)
    ensures paperSize != "A4" ==> cards == LabelLayout(persons)
  {
    cards := [];
    if paperSize == "A4" {
      var page: nat, x, y := 0, EDGE_MARGIN, TOP_ROW;
      for k := 0 to |persons|
        invariant Cursor(page, x, y) == CursorAfter(k)
        invariant cards == A4Layout(persons[..k])
      {
        if y < EDGE_MARGIN {
          page, x, y := page + 1, EDGE_MARGIN, TOP_ROW;
        }
        cards := cards + [Placement(persons[k], Cursor(page, x, y))];
        x := x + CARD_WIDTH;
        if x + CARD_WIDTH > PAGE_WIDTH - EDGE_MARGIN {
          x := EDGE_MARGIN;
          y := y - (CARD_HEIGHT + GRID_MARGIN_Y);
        }
      }
      assert persons[..|persons|] == persons;
    } else {
      for k := 0 to |persons|
        invariant cards == LabelLayout(persons[..k])
      {
        cards := cards + [Placement(persons[k], Cursor(k, 0.0, 0.0))];
      }
      assert persons[..|persons|] == persons;
    }
  }

  /** The first row starts inside the page, and a card fits between the side margins. */
  lemma A4Fits()
    ensures EDGE_MARGIN <= TOP_ROW
    ensures TOP_ROW + CARD_HEIGHT == PAGE_HEIGHT - EDGE_MARGIN
    ensures EDGE_MARGIN + CARD_WIDTH <= PAGE_WIDTH - EDGE_MARGIN
  {
  }

  /** The first card is drawn at the top-left corner of the first page. */
  lemma FirstSlot()
    ensures SlotOf(0) == Cursor(0, EDGE_MARGIN, PAGE_HEIGHT - CARD_HEIGHT_MM * MM_TO_PT - EDGE_MARGIN)
  {
    A4Fits();
  }

  /** Every cursor is at or right of the left margin and leaves room for a card before the right margin. */
  lemma {:induction false} CursorInsideMargins(n: nat)
    ensures EDGE_MARGIN <= CursorAfter(n).x
    ensures CursorAfter(n).x + CARD_WIDTH <= PAGE_WIDTH - EDGE_MARGIN
  {
    A4Fits();
    if n > 0 {
      CursorInsideMargins(n - 1);
    }
  }

  /** Every card lies inside the margins of its page. */
  lemma SlotInsideMargins(k: nat)
    ensures EDGE_MARGIN <= SlotOf(k).x
    ensures SlotOf(k).x + CARD_WIDTH <= PAGE_WIDTH - EDGE_MARGIN
    ensures EDGE_MARGIN <= SlotOf(k).y
    ensures SlotOf(k).y + CARD_HEIGHT <= PAGE_HEIGHT - EDGE_MARGIN
  {
    A4Fits();
    CursorInsideMargins(k);
    CursorBelowTop(k);
  }

  /** No cursor is above the first row. */
  lemma {:induction false} CursorBelowTop(n: nat)
    ensures CursorAfter(n).y <= TOP_ROW
  {
    if n > 0 {
      CursorBelowTop(n - 1);
    }
  }

  /**
   * Card a comes before card b: on an earlier page, on a lower row of the
   * same page (at least one card height lower), or on the same row at
   * least one card width further right. Two such cards never overlap.
   */
  predicate Before(a: Cursor, b: Cursor)
  {
    || a.page < b.page
    || (a.page == b.page && b.y + CARD_HEIGHT <= a.y)
    || (a.page == b.page && b.y == a.y && a.x + CARD_WIDTH <= b.x)
  }

  /** Each card goes after the previous one: to its right on the same row, on the next row down, or on a new page. */
  lemma NextSlotFollows(k: nat)
    ensures Before(SlotOf(k), SlotOf(k + 1))
    ensures SlotOf(k + 1).page == SlotOf(k).page || SlotOf(k + 1).page == SlotOf(k).page + 1
  {
    SlotInsideMargins(k);
  }

  /** Cards on the same page never overlap, and the pages are used in order. */
  lemma {:induction false} SlotsInOrder(k: nat, l: nat)
    requires k < l
    ensures Before(SlotOf(k), SlotOf(l))
    decreases l
  {
    NextSlotFollows(l - 1);
    if k < l - 1 {
      SlotsInOrder(k, l - 1);
    }
  }

  /** Each card is built with the driver's size, so consecutive cards on a row touch. */
  lemma CardsOnARowTouch(k: nat)
    requires SlotOf(k + 1).page == SlotOf(k).page && SlotOf(k + 1).y == SlotOf(k).y
    ensures var d := FromMillimetres(SlotOf(k).x, SlotOf(k).y, CARD_WIDTH_MM, CARD_HEIGHT_MM, TOP_BOTTOM_PADDING_MM);
      d.x + d.width == SlotOf(k + 1).x
  {
    SlotInsideMargins(k);
  }

  /** On label paper every card is drawn at the origin of a page of its own. */
  lemma LabelPagesAreSingle(persons: seq<Person>, k: nat, l: nat)
    requires k < l < |persons|
    ensures LabelLayout(persons)[k].at.page < LabelLayout(persons)[l].at.page
    ensures LabelLayout(persons)[k].at.x == 0.0 && LabelLayout(persons)[k].at.y == 0.0
  {
  }
}
