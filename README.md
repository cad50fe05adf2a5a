# mock-nametags card layout, in Dafny

mock-nametags turns a list of fire-brigade members into printable name tags.
Each tag, or *card*, is a fixed-size rectangle. Its content area is split
into four blocks, side by side:

- **Photo.** The member's photo, their function (role) caption below it, and a divider line.
- **Name and rank.** Last name, first name, a row of rank bars for the highest leading qualification (or the trainee label "Anwärter") and the personnel id.
- **Vehicle instructions.** One stacked box per vehicle, filled when the member is instructed on it.
- **Badges.** A square of four quadrants: one per technical qualification, with its icon when held.

A card is laid out when it is drawn:
1. The blocks that have no fixed width share what the others leave of the content width.
2. Every width must then be truthy.
3. The blocks are packed left to right, each starting at its left neighbour's right edge.
4. The blocks are drawn in order, then the two borders.

The driver places one card per person on pages. On A4 paper the cards fill landscape pages row by row. On label paper each card gets a page of its own.

The model covers these parts:
- **The newer code base.** Person normalisation, card dimensions, the block base class, the four blocks, the card and its layout, and the page grid.
- **The older layout helper.** Blocks stored by name, with widths propagated leftwards from a placed block.
- **The older single-file driver.** Its person normalisation, function check, highest-role scan, rank bars, vehicle column, badge squares and page grid.

How the model is built:
- **Drawing.** Drawing is modelled as a trace of canvas commands (`Canvas.Command`). A `Canvas.Drawn` pairs the commands emitted with the error raised, if any. An exception stops the trace where it is raised.
- **Text measurement.** Text width is a parameter (`Canvas.Metric`) standing in for reportlab's `stringWidth`.
- **I/O.** The file-system and network lookups of the photo are the booleans `placeholderExists` and `fetchOk`.

Files:
- **Value-level parts.** These are functions with lemmas:
  - `persons.dfy`, `card_dimensions.dfy` and `layout.dfy`.
  - The block geometry in `image_block.dfy`, `main_block.dfy`, `vehicle_block.dfy` and `qualification_block.dfy`.
  - `pages.dfy`.
- **Parts that update state.** These are classes:
  - `Blocks.Block`, whose `x` and `width` the card assigns.
  - `CardLayout.Card`, whose draw resolves widths, packs the blocks and appends to the canvas trace.
  - `BlockHelper.BlockTable`.
- **Loops.** Every loop of the source is a method proved against a specification function:
  - the rank bars, the vehicle boxes, the badges and the page loops;
  - the legacy role scan and the legacy squares.

## Model

| member | source | states |
|---|---|---|
| Persons.QualificationKeys | src/params.py:5-6 | the qualification keys are exactly the technical and leading qualifications |
| Persons.Normalise | src/FormatClasses/Person.py:22-23 | every known key is present, true exactly when the input lists it |
| Persons.FromJson | src/FormatClasses/Person.py:20-33 | qualification keys are exactly the known ones, each true iff listed, unknown listed keys dropped; every other field copied |
| Persons.FromJsonDependsOnlyOnListedSet | src/FormatClasses/Person.py:22-23 | two inputs listing the same set of qualifications (in any order, with repeats) give the same person |
| CardDimensions.FromMillimetres | src/card/CardDimensions.py:5-12 | the card keeps its origin, its size is the millimetre size times 2.834, and the content is inset by the padding at top and bottom |
| CardDimensions.Content | src/card/CardDimensions.py:14-15 | the content rectangle spans the card's full width at the content y and height |
| CardDimensions.ContentIsSymmetricInset | src/card/CardDimensions.py:9-15 | the content is inset equally at top and bottom, shares both side edges with the card, and lies inside the card when the padding fits |
| Blocks.Block.constructor | src/blocks/Block.py:10-14 | a block stores its position, width, height and the default font |
| Blocks.Block.RightEdge | src/blocks/Block.py:16-20 | the right edge exists iff x and width exist, and is then x plus width |
| Blocks.Block.GetWidth | src/blocks/Block.py:22-23 | the stored width, except an image block reports its picture width |
| Blocks.Block.SetX | src/blocks/Block.py:25-26 | x becomes the given value, the width is unchanged, so the right edge moves with x |
| ImageBlocks.PictureGeometry | src/blocks/ImageBlock.py:31-37 | with a height, the picture is the height minus the label strip tall, 550:732 in aspect, and the block is as wide as the picture |
| ImageBlocks.ResolveImage | src/blocks/ImageBlock.py:78-95 | with an image url: no personnel id fails, a failed download fails, otherwise the downloaded image; without one: the placeholder file, or an error when it is missing |
| ImageBlocks.Setup | src/blocks/ImageBlock.py:31-42 | setup fails exactly when the image cannot be resolved, with the resolution's own error (no personnel id, failed download or missing placeholder); otherwise the picture geometry above and the resolved image |
| ImageBlocks.Commands | src/blocks/ImageBlock.py:44-76 | the picture sits at the top of the block; a missing function raises after the picture; otherwise the caption is centred horizontally under the picture and vertically in the label strip below it (lying below the picture when the strip is tall enough), then the right border and the divider |
| MainBlocks.HighestRoleIdx | src/blocks/MainBlock.py:63-66 | the index of the highest held leading role, none exactly when no role is held |
| MainBlocks.BarsAt | src/blocks/MainBlock.py:73-89 | bar i is the i-th rectangle then its label, two commands per bar |
| MainBlocks.DrawQualificationBars | src/blocks/MainBlock.py:68-89 | the loop emits exactly the bar sequence for the four ranks above the lowest |
| MainBlocks.BarsTileInnerWidth | src/blocks/MainBlock.py:69-78 | the bars tile the padded width without gaps, and bar i is green exactly when i does not exceed the held rank |
| MainBlocks.Commands | src/blocks/MainBlock.py:22-94 | last and first name at the top left; the trainee label, or the whole bar sequence when a role is held; the personnel id right-aligned when present; never raises |
| MainBlocks.CommandsShowBars | src/blocks/MainBlock.py:68-89 | with a role held, the name block shows bar i's rectangle at position 2i and its label right after it |
| MainBlocks.Draw | src/blocks/MainBlock.py:22-26 | drawing emits exactly the corrected command sequence |
| MainBlocks.DrawAsWritten | src/blocks/MainBlock.py:26 | the code as written emits the names and indicator, then raises on the missing personnel_nr attribute |
| MainBlocks.AsWrittenFailsForEveryPerson | src/blocks/MainBlock.py:26 | for every person the code as written raises while the corrected drawing does not; what it draws is a prefix of the corrected drawing, all of it exactly when there is no personnel id |
| VehicleBlocks.BoxHeight | src/blocks/VehicleInstructionsBlock.py:14 | the box height times the number of instructions is the block height; no instructions divide by zero |
| VehicleBlocks.MaxNameWidth | src/blocks/VehicleInstructionsBlock.py:19-20 | the result is the width of one vehicle name and no name is wider |
| VehicleBlocks.CalculateWidth | src/blocks/VehicleInstructionsBlock.py:18-21 | the widest name plus padding; an empty list fails as max() of nothing |
| VehicleBlocks.WidthIndependentOfOrder | src/blocks/VehicleInstructionsBlock.py:18-21 | reordering the instructions does not change the width |
| VehicleBlocks.Setup | src/blocks/VehicleInstructionsBlock.py:13-16 | box height, font size and width as above, the width positive; no instructions divide by zero |
| VehicleBlocks.Draw | src/blocks/VehicleInstructionsBlock.py:26-45 | the loop emits exactly the box sequence for every instruction in order |
| VehicleBlocks.OneBoxPerInstruction | src/blocks/VehicleInstructionsBlock.py:29-43 | instruction k gets a rectangle k + 1 boxes below the top, filled iff instructed, and its name inside |
| VehicleBlocks.BoxesTileHeight | src/blocks/VehicleInstructionsBlock.py:27-45 | the boxes stack from the top edge to the bottom edge without gaps |
| QualificationBlocks.OptionsAreInjective | src/blocks/QualificationsBlock.py:28-31 | four badges, with distinct keys, quadrants and icons |
| QualificationBlocks.SideLength | src/blocks/QualificationsBlock.py:36-41 | a non-square block is refused; otherwise the quadrant side is half the block side |
| QualificationBlocks.SquareCoords | src/blocks/QualificationsBlock.py:112-132 | a non-positive side fails; otherwise the quadrant is offset by one side to the right and/or up as its position says |
| QualificationBlocks.QuadrantsTileBlock | src/blocks/QualificationsBlock.py:112-132 | every point of the block lies in some quadrant and distinct quadrants' interiors are disjoint |
| QualificationBlocks.IconBox | src/blocks/QualificationsBlock.py:57-83 | a scale above one or a non-positive side fails; otherwise the icon's side is the scaled side minus the padding, and it keeps the padding from its quadrant's outer edges (twice that on the top and right edges) |
| QualificationBlocks.IconInsideQuadrant | src/blocks/QualificationsBlock.py:63-81 | with a fitting padding the icon lies inside its quadrant |
| QualificationBlocks.BadgeCommands | src/blocks/QualificationsBlock.py:47-55 | a non-positive side or missing key raises before drawing; otherwise the square, filled iff held, and the icon iff held |
| QualificationBlocks.Badges | src/blocks/QualificationsBlock.py:47-55 | the only errors are a non-positive side or a missing qualification key |
| QualificationBlocks.BadgesKeepError | src/blocks/QualificationsBlock.py:47-55 | once a badge raises, later badges add nothing |
| QualificationBlocks.DrawQualifications | src/blocks/QualificationsBlock.py:47-55 | the loop emits exactly the badge sequence |
| QualificationBlocks.BadgesDrawn | src/blocks/QualificationsBlock.py:47-55 | with every key present, one square per badge in order and the icons of the held badges in order |
| QualificationBlocks.BadgeSquaresAndPictures | src/blocks/QualificationsBlock.py:49-55 | one badge draws its square at its quadrant and its icon only when held |
| QualificationBlocks.IconDrawnIffHeld | src/blocks/QualificationsBlock.py:55 | a badge's icon is drawn exactly when the person holds that qualification |
| QualificationBlocks.HeldIconsMembers | src/blocks/QualificationsBlock.py:47-55 | the held icons are exactly those of held badges |
| QualificationBlocks.NonPositiveSideDrawsNothing | src/blocks/QualificationsBlock.py:119 | a non-positive side fails at the first badge with nothing drawn |
| QualificationBlocks.FirstMissingKeyReported | src/blocks/QualificationsBlock.py:53 | the first badge whose key is missing is the error reported |
| QualificationBlocks.BadgesPrefixClean | src/blocks/QualificationsBlock.py:47-55 | badges whose keys are all present raise nothing |
| QualificationBlocks.Commands | src/blocks/QualificationsBlock.py:43-45 | the badges, then the QR code of the personnel id when there is one and nothing raised |
| QualificationBlocks.Draw | src/blocks/QualificationsBlock.py:43-45 | drawing emits exactly that sequence |
| Layout.FlexCount | src/card/Card.py:68 | the number of blocks without a width, zero exactly when every block has one |
| Layout.Share | src/card/Card.py:71-73 | the share times the number of flexible blocks is the content width minus the used width |
| Layout.Fill | src/card/Card.py:72-73 | missing widths become the share, the others are kept |
| Layout.Resolve | src/card/Card.py:67-73 | after resolution every block has a width and fixed widths are unchanged |
| Layout.UsedIsTotal | src/card/Card.py:67 | skipping zero widths in the sum changes nothing |
| Layout.ResolvedWidthsFillContent | src/card/Card.py:67-73 | with a flexible block, the resolved widths add up to the content width exactly |
| Layout.FlexBlocksShareEqually | src/card/Card.py:71-73 | all flexible blocks get the same width, which times their number is the free width |
| Layout.ResolveWithoutFlexIsIdentity | src/card/Card.py:72-73 | with no flexible block resolution changes nothing |
| Layout.ResolutionFailsIff | src/card/Card.py:67-76 | the truthiness assertion fails iff some block had width zero or the share is zero; a negative share passes |
| Layout.PackedStart | src/card/Card.py:79-81 | a packed block starts at the origin plus the widths before it |
| Layout.PackedEnd | src/card/Card.py:79-81 | the last packed block ends at the origin plus all widths |
| Layout.PackedInOrder | src/card/Card.py:79-81 | with non-negative widths packed blocks never overlap |
| CardLayout.CardCommands | src/card/Card.py:83-95 | the photo first; the card fails only on a missing function or a badge error; on success the borders close the trace |
| CardLayout.AsWrittenCardStopsAtNameBlock | src/card/Card.py:83-84 | with the name block as written, a card stops at the name block with the missing personnel_nr attribute (at the photo when there is no function), so vehicles, badges and borders are never drawn; what it draws is a prefix of the corrected card |
| CardLayout.TwoBlocksStartCard | src/card/Card.py:83-86 | the photo's and the name block's commands are the start of the card's trace |
| CardLayout.BlocksUpToShape | src/card/Card.py:83-84 | the blocks drawn so far start with the photo, and raise exactly when the function is missing or, once the badges are drawn, when they raise |
| CardLayout.BlocksKeepError | src/card/Card.py:83-84 | once a block raises, the blocks after it add nothing |
| CardLayout.DrawBlock | src/card/Card.py:84 | each block's draw appends exactly that block's commands to the canvas |
| CardLayout.DrawAllBlocks | src/card/Card.py:83-84 | the loop draws the blocks in order, stops at the first that raises, and leaves on the canvas exactly the blocks' commands |
| CardLayout.DrawLaidOut | src/card/Card.py:83-95 | drawing appends exactly the card's commands to the canvas, the borders only when no block raised, and returns their error |
| CardLayout.Card.constructor | src/card/Card.py:22-63 | the card's dimensions and four blocks: photo sized from the content height, name block without width, vehicle block with its width, badge square at the right edge |
| CardLayout.Card.Create | src/card/Card.py:31-63 | construction fails exactly when the photo cannot be resolved or there are no instructions, with that error |
| CardLayout.Card.Draw | src/card/Card.py:65-86 | widths resolved; MissingWidth iff a width is falsy, with nothing drawn or moved; otherwise the blocks packed from the content x, the trace extended and the badge square ending at the content's right edge |
| CardLayout.Card.LayOut | src/card/Card.py:67-81 | the sharing step, the truthiness check, and on success the packing, with the badge square at its constructed x |
| CardLayout.Card.ShareWidths | src/card/Card.py:67-73 | the widths become their resolution; positions unchanged |
| CardLayout.Card.Pack | src/card/Card.py:79-81 | each block starts at its left neighbour's right edge, the first at the content x; widths unchanged |
| CardLayout.Card.DrawBlocks | src/card/Card.py:83-86 | the canvas trace grows by the laid-out card's commands |
| CardLayout.Card.EndsAtContentEdge | src/card/Card.py:59-81 | after sharing and packing, the badge square ends at the content's right edge and starts where the constructor placed it |
| CardLayout.PackedCardEndsAtContentEdge | src/card/Card.py:59 | with a flexible block, packing puts the badge square exactly where the constructor placed it |
| BlockHelper.RightEdge | src/Helper/BlockHelper.py:10-17 | the right edge exists iff position and width do, and is then their sum |
| BlockHelper.UpdatePrev | src/Helper/BlockHelper.py:28-40 | an index outside Python's range raises IndexError, and only then; positions never change; blocks at and after the index are untouched |
| BlockHelper.UpdatePrevContiguous | src/Helper/BlockHelper.py:34-40 | a block the walk reaches ends where its right neighbour starts, or stays unchanged when it has no position (the walk fails there); one it does not reach is unchanged |
| BlockHelper.UpdatePrevFailsIff | src/Helper/BlockHelper.py:34-38 | the walk fails exactly when it meets an unpositioned block, and the error is then that block |
| BlockHelper.AllPositionedMakesContiguous | src/Helper/BlockHelper.py:28-40 | with every block up to the index positioned, the walk succeeds and the blocks are contiguous |
| BlockHelper.IndexOf | src/Helper/BlockHelper.py:24 | the first position of the name |
| BlockHelper.BlockTable.constructor | src/Helper/BlockHelper.py:22 | the table holds one block per name and no name twice, as the keys of the blocks dictionary |
| BlockHelper.BlockTable.UpdatePrevBlock | src/Helper/BlockHelper.py:28-40 | the recursive method updates the blocks exactly as the walk does and returns its error |
| BlockHelper.BlockTable.SetX | src/Helper/BlockHelper.py:22-25 | an unknown name raises with nothing changed; otherwise the block is positioned and the walk runs from it |
| BlockHelper.SetXMakesContiguous | src/Helper/BlockHelper.py:22-40 | after set_x on a block whose left neighbours are positioned, it sits at x and the blocks up to it are contiguous |
| Pages.Place | main.py:40-43 | a cursor below the bottom margin moves to the top row of a new page, otherwise it stays |
| Pages.A4Layout | main.py:37-51 | one placement per person, in input order, the k-th at the k-th slot of the grid |
| Pages.LabelLayout | main.py:53-58 | one placement per person, in input order |
| Pages.CreatePdf | main.py:31-60 | the loop places the cards exactly as the A4 grid or the label layout says, as the paper size selects |
| Pages.A4Fits | main.py:22-38 | the first row starts inside the page and a card fits between the side margins |
| Pages.FirstSlot | main.py:37-38 | the first card is at the top-left corner of the first page |
| Pages.CursorInsideMargins | main.py:48-50 | every cursor leaves room for a card between the side margins |
| Pages.SlotInsideMargins | main.py:37-51 | every card lies inside its page's margins |
| Pages.CursorBelowTop | main.py:38-51 | no cursor is above the first row |
| Pages.NextSlotFollows | main.py:40-51 | each card is right of the previous one, on the next row down, or on the next page |
| Pages.SlotsInOrder | main.py:39-51 | cards on a page never overlap and pages are used in order |
| Pages.CardsOnARowTouch | main.py:45-48 | neighbouring cards on a row touch |
| Pages.LabelPagesAreSingle | main.py:55-58 | on label paper each card is at the origin of its own page |
| LegacyDriver.FromJson | main_old.py:52-64 | every key of the legacy list is present, true iff listed; other fields copied |
| LegacyDriver.FromJsonExtendsCurrent | main_old.py:26-29 | the legacy keys are the current ones plus Sprechfunk and Sanitäter, and agree with the current normalisation on the shared keys |
| LegacyDriver.CheckFunction | main_old.py:265-266 | a function name outside the allowed list is refused |
| LegacyDriver.MappingMirrorsRoles | main_old.py:305-310 | the legacy role mapping lists the same roles and ranks as the block's |
| LegacyDriver.ScanHighestRole | main_old.py:312-319 | the loop computes the specified scan |
| LegacyDriver.ScanKeepsFirstHeld | main_old.py:315-319 | with every key present, the scan returns the first held role in mapping order, or none |
| LegacyDriver.ScanAgreesWithRoleIndex | main_old.py:305-319 | the legacy scan and the block's highest-role index pick the same role |
| LegacyDriver.DrawLeadingRoleIndicator | main_old.py:142-160 | the loop emits exactly the four bars and labels |
| LegacyDriver.BarsTileIndicator | main_old.py:147-154 | the bars tile the indicator width, and their colours agree with the block's bars |
| LegacyDriver.Indicator | main_old.py:321-329 | the trainee label is drawn exactly when no role is held; with a role held, the four rank bars for its rank value are drawn in the indicator box and no trainee label |
| LegacyDriver.VehicleColumn | main_old.py:288-302 | no instructions divide by zero, and only then |
| LegacyDriver.DrawVehicleColumn | main_old.py:288-302 | the loop emits exactly the column's commands |
| LegacyDriver.VehicleColumnGeometry | main_old.py:289-298 | the boxes share the view window's height, and the column ends where the badge square begins |
| LegacyDriver.FieldIsSquareCoords | main_old.py:164-166 | the legacy quadrant origins agree with the block's square coordinates |
| LegacyDriver.DrawSquares | main_old.py:163-174 | the loop, skipping unheld badges, emits exactly the specified squares |
| LegacyDriver.SquaresKeepError | main_old.py:167-174 | once a missing key raises, later badges add nothing |
| LegacyDriver.SquaresOnlyForHeld | main_old.py:167-174 | with every key present, a square is drawn for a badge exactly when it is held |
| LegacyDriver.CreatePdf | main_old.py:353-375 | whatever paper size is asked for, the cards follow the A4 grid |

## Left out

- Rendering: reportlab's canvas, fonts, colours and images are abstract commands. The file-system and network lookups of the photo are the booleans `placeholderExists` and `fetchOk`. Text width is the `Metric` parameter. Icon files, QR-code generation and PIL image processing are not modelled.
- Floating point: widths and coordinates are exact reals. Rounding in the sharing division and in the millimetre conversion is not modelled.
- Block.draw raising NotImplementedError (src/blocks/Block.py:28-32): the block kinds form a closed datatype, so the abstract case cannot arise.
- The explicit IndexError raise at src/Helper/BlockHelper.py:31-32 is unreachable, because the indexing on line 30 raises first. It is modelled as that raise.
- The diagnostic print in update_prev_block has no effect on the result and is left out.
- BlockHelper.BlockTable: blocks are values in a sequence, so aliasing between dictionary entries is not modelled.
- Pages.CreatePdf and LegacyDriver.CreatePdf yield the placement of each card rather than calling the card's draw and showPage. A card error aborting the PDF and the returned byte buffer are not modelled.
- The page size of landscape A4 is taken as 297 by 210 millimetres at 72 points per inch. reportlab's rounding of it is not modelled.
- The HTTP endpoints of main.py and main_old.py, CanvasHelper, api/index.py and create_preview.py are not part of this model.
- The endpoint at main.py:69 passes the filename where create_pdf (main.py:31) expects the paper size, and the paper size where it expects the filename. It belongs to the HTTP layer left out above.
- The script entry point at main_old.py:394 calls create_pdf (main_old.py:353) with the filename in its place but without the paper size, which raises a TypeError for the missing argument before anything is drawn. The script block (main_old.py:387-394) is not part of this model.
- CardLayout.CardCommands, CardLayout.BlocksUpToShape, CardLayout.Card.Draw: compose the corrected MainBlocks.Commands. As written, every draw stops with the missing personnel_nr attribute after the name block (see Findings and CardLayout.AsWrittenCardStopsAtNameBlock).
- Persons.FromJson, LegacyDriver.FromJson: the JSON object is taken as an already typed record. The KeyError for a missing field, the validation error for a mistyped field and the error from building an Instruction out of a malformed entry (src/FormatClasses/Person.py:21-33, main_old.py:53-64) are not modelled.
- The card's font field is stored but never used for drawing. The model uses the blocks' default font.
- main_old.py draw_single_card: only the parts named in the table are modelled. The photo lookup, name text, borders and personnel-id text are left out.
- The legacy badge squares are drawn only for held qualifications, while the newer block draws every square and fills the held ones. Both behaviours are modelled as written.
- The requirement that a negative free width be reported is not part of the code. The model follows the code: a negative share passes the truthiness check (Layout.ResolutionFailsIff).

## Findings

| source | as written | input that shows it | evidently intended | confidence | as-written member | corrected member |
|---|---|---|---|---|---|---|
| src/blocks/MainBlock.py:26 | reads `person.personnel_nr`, an attribute the Person class does not have (its field is `personnel_id`) | any person: drawing the name block raises AttributeError after the names and rank indicator | draw the personnel id when `personnel_id` is set | not executed | MainBlocks.DrawAsWritten | MainBlocks.Commands |
