# Planogram builder: grid geometry and item state

This project models the logic of a browser-based planogram editor in Dafny. In
the editor, users drag images from a library onto a canvas of `width x height`
pixels. The canvas is divided into a uniform grid of `rows x cols` equal
sections. Users can then move placed items, remove them, or clear the canvas.
All of this logic lives in `app.js`. The model covers:

- **Helpers** (`helpers.dfy`): `clamp`, `clampInt` (with the outcome of
  `parseInt` given as `Option<int>`), `truncate` and `escapeHtml`. `escapeHtml`
  has an inverse, `UnescapeHtml`, which the round-trip lemma uses.
- **Grid** (`grid.dfy`): the section rectangles `renderSections` draws, written
  as an imperative method with the same nested row and column loops, and
  `getSectionForPoint`. The lemmas show that the drawn sections tile the canvas
  and that the section chosen for a point on the canvas is the drawn section
  holding that point. Coordinates are exact `real`s. The facts about
  multiplication, division and rounding down that these proofs use are in
  their own module, **Arith** (`arith.dfy`).
- **Planogram** (`planogram.dfy`): the editor's state object as a class with
  three fields. `canvas` holds the settings, `library` the image entries and
  `items` the placed items. Each event handler that changes the state is a
  method:
  - the resize loop of `applyCanvasSettings`
  - `addLibraryItem`
  - the drop handler
  - one pointer move of a drag
  - the double-click removal
  - the clear button

  Each method states the whole new state in terms of the old one. A pure
  function specifies each per-item step, and lemmas prove the properties the
  code promises.

Notes on the code as written:

- The grid is uniform: every row has `cols` sections.
- A resize clamps item positions but does **not** recompute item sections.
  `ResizeKeepsStaleSection` shows a section left outside a shrunken grid.
- A drop records the section of the drop point itself, not the section of the
  placed item's centre. The two are the same unless the item was shifted to
  stay on the canvas.

A point can sit in the last pixel of the canvas, between `width - 1` and
`width`. `getSectionForPoint` first clamps it to `width - 1`, so such a point
is guaranteed to land in the section whose rectangle holds it when every
section is at least one pixel wide (`cols <= width`, `rows <= height`). The
settings ranges of `applyCanvasSettings` (sides 200 to 20000, 1 to 200
divisions) always guarantee this (`SettingsHaveWholePixelCells`).
`NarrowCellsMisplacePoints` shows a point that lands in the wrong section on a
canvas with narrower sections.

## Model

| member | source | states |
|---|---|---|
| `Helpers.Clamp` | app.js:319 | the result is never below `min`; it lies in `[min, max]` when `min <= max`; it is `n` when `n` is in range, `min` at or below `min` or when the bounds cross, `max` at or above `max` |
| `Helpers.ClampIdempotent` | app.js:319 | clamping twice to the same bounds equals clamping once |
| `Helpers.ClampInt` | app.js:320-324 | an unparseable input gives `min`; a parsed value is kept when in `[min, max]`, becomes `min` at or below `min` and `max` at or above `max`; the result always lies in `[min, max]` |
| `Helpers.SliceEnd` | app.js:325 | the end position `slice(0, end)` stops at: `end` itself when it is in `[0, len]`, `len` beyond it, `len + end` for a negative end down to `-len`, and 0 below that |
| `Helpers.Truncate` | app.js:325 | a string of at most `n` characters is returned unchanged; a longer one becomes a prefix of it followed by the ellipsis, exactly `n` characters long when `n >= 1` |
| `Helpers.EscapeChar` | app.js:327 | the replacement of one character is free of `<`, `>`, `"` and `'`; it is the character itself exactly when the character is not one of the five special ones, and otherwise an entity of at least four characters from `&` to `;` |
| `Helpers.EscapeHtml` | app.js:326-328 | the output contains no `<`, `>`, `"` or `'`, is no shorter than the input, and equals the input when there is nothing to escape |
| `Helpers.EscapeRoundTrip` | app.js:326-328 | unescaping the escaped text gives back the original text: escaping loses nothing |
| `Grid.Canvas.CellW` | app.js:64-65 | the section width is positive, and `cols` sections of that width make up exactly the canvas width |
| `Grid.Canvas.CellH` | app.js:64-66 | the section height is positive, and `rows` sections of that height make up exactly the canvas height |
| `Grid.SectionRect` | app.js:72-75 | a section's rectangle is one section wide and high; for a section of the grid it lies inside the canvas |
| `Grid.AxisIndex` | app.js:89-92 | the clamped, scaled and floored coordinate is always an index in `[0, n)` |
| `Grid.GetSectionForPoint` | app.js:87-94 | for any point, even one off the canvas, the section returned has `0 <= r < rows` and `0 <= c < cols` |
| `Grid.AxisIndexCovers` | app.js:89-92 | a coordinate in `[0, size)` lies in the interval `[k * size/n, (k + 1) * size/n)` of the index `k` that is picked |
| `Grid.SectionContainsPoint` | app.js:87-94 | for a point on the canvas, the rectangle of the returned section holds the point |
| `Grid.SectionForPointUnique` | app.js:87-94 | any section whose rectangle holds a canvas point is the section returned for it |
| `Grid.OffCanvasSnapsToEdge` | app.js:89-90 | points left of or above the canvas go to the first column or row; points right of or below it go to the last |
| `Grid.NarrowCellsMisplacePoints` | app.js:89-91 | on a 1-pixel canvas with two columns, the point 0.75 lies in column 1 but is assigned column 0 |
| `Grid.DefaultCanvasPoints` | app.js:87-94 | on the 1240 x 2438 canvas with 6 x 3 sections, (0,0), (1239,2437) and (620,0) fall in sections (0,0), (5,2) and (0,1) |
| `Grid.RenderSections` | app.js:64-84 | the nested loops produce exactly `rows * cols` cells in row-major order; cell `i` is section `(i / cols, i % cols)` with rectangle `(c * cellW, r * cellH, cellW, cellH)` |
| `Grid.GridInsideCanvas` | app.js:64-75 | every drawn section is `width/cols` by `height/rows` and lies inside the canvas |
| `Grid.GridCoversCanvas` | app.js:64-84 | every point of `[0, width) x [0, height)` lies in some drawn section |
| `Grid.GridCellsDisjoint` | app.js:64-84 | no point lies in two different drawn sections |
| `Grid.GridTilesCanvas` | app.js:64-84 | every point of the canvas lies in exactly one drawn section |
| `Grid.PointLandsInDrawnCell` | app.js:64-94 | the section picked for a canvas point is the one drawn at position `r * cols + c`, and its rectangle holds the point |
| `Planogram.SettingsFrom` | app.js:38-43 | the new settings are always within 200..20000 pixels and 1..200 divisions; for each field, an unparseable input gives the minimum, an in-range input is kept, an input below the range gives the minimum and one above it the maximum |
| `Planogram.SettingsHaveWholePixelCells` | app.js:38-41 | settings in those ranges never make a section narrower or shorter than one pixel |
| `Planogram.Reclamped` | app.js:54-55 | one step of the resize loop changes only the position; the new corner is never negative, keeps the item within each side it is no larger than, and stays where it was on an axis where the item already fitted; a corner past an edge goes to that edge: 0 at or before the left or top, `width - w` or `height - h` at or beyond the right or bottom |
| `Planogram.ReclampedFits` | app.js:53-56 | after a resize an item no larger than the canvas satisfies `0 <= x <= width - w` and `0 <= y <= height - h`; its id, src, size and section are unchanged |
| `Planogram.ReclampedKeepsFitting` | app.js:53-56 | an item already on the canvas is not moved by a resize |
| `Planogram.ReclampedIdempotent` | app.js:53-56 | re-applying the same settings does not move an item again |
| `Planogram.ResizeKeepsStaleSection` | app.js:53-56 | a resize to a 1 x 1 grid leaves an item recorded in section (5, 2), which is outside the grid |
| `Planogram.FindEntry` | app.js:164 | finds the first library entry with the id, or reports that none has it |
| `Planogram.DropEntry` | app.js:156-165 | a drop places an entry exactly when the payload parsed, has type "library" and names an id some library entry has; the entry placed has that id and is in the library |
| `Planogram.Placed` | app.js:167-176 | the new item has the given id and the entry's src and is 110 x 110; its corner is never negative and keeps it on a canvas at least 110 pixels each way; away from the edges it is centred on the drop point; a drop within 55 pixels of an edge (or beyond it) puts the item flush with that edge; its section is in the grid |
| `Planogram.PlacedProperties` | app.js:167-176 | a dropped item is 110 x 110, lies on the canvas, keeps the entry's src, and gets a section in the grid whose rectangle holds the drop point; an item dropped away from the edges is centred on the drop point |
| `Planogram.DropOnDefaultCanvas` | app.js:167-176 | a drop at (500, 500) on the default canvas creates an item at (445, 445) in section (1, 1) |
| `Planogram.FindItem` | app.js:233 | finds the position of the first item with the id, or reports that none has it |
| `Planogram.Moved` | app.js:239-245 | a move changes only the position and the section; the corner is never negative, keeps the item within each side it is no larger than, and equals the drag-start position plus the movement when that is on the canvas, and the nearer edge when that is past an edge; the section is in the grid |
| `Planogram.MovedFits` | app.js:239-245 | a dragged item stays on the canvas and keeps its id, src and size; its section is in the grid and its rectangle holds the item's centre |
| `Planogram.MovedForgetsEarlierMoves` | app.js:236-240 | a move depends only on the drag-start position and the total movement, not on where earlier moves left the item |
| `Planogram.WithoutId` | app.js:204 | no remaining item has the id; every remaining item was in the list; the list does not grow |
| `Planogram.WithoutIdKeepsOthers` | app.js:204 | every item with a different id is kept |
| `Planogram.WithoutIdAppend` | app.js:204 | removal works piece by piece on a concatenation, so the kept items stay in their original order |
| `Planogram.WithoutIdAbsent` | app.js:204 | removing an id that no item has leaves the list unchanged |
| `Planogram.WithoutIdIdempotent` | app.js:204 | removing the same id twice equals removing it once |
| `Planogram.LabelAsWritten` | app.js:124 | the visible label as the code writes it: a name of up to 18 characters unchanged, a longer one cut to its first 17 characters and the ellipsis, with no escaping |
| `Planogram.LabelAsWrittenPassesMarkup` | app.js:124 | a library name containing `<` reaches the card's HTML unescaped |
| `Planogram.Label` | app.js:124 | the escaped label contains no markup and unescapes to exactly the truncated name |
| `Planogram.State.constructor` | app.js:28-32 | starts with the 1240 x 2438 canvas of 6 x 3 sections, an empty library and no items, which is a valid state |
| `Planogram.State.ApplyCanvasSettings` | app.js:37-58 | the settings become the clamped inputs; each item in turn gets its position clamped in place, leaving its section and the list's order and length alone; the library is unchanged; a valid state results when all items are 110 x 110 |
| `Planogram.State.AddLibraryItem` | app.js:97-101 | the new entry goes to the front of the library; nothing else changes |
| `Planogram.State.Drop` | app.js:154-180 | a parsed payload of kind "library" that names an existing entry appends exactly one placed item; otherwise nothing changes; existing items, the library and the settings are untouched; validity is preserved |
| `Planogram.State.Drag` | app.js:231-245 | only the first item with the id changes, to its moved form; an unknown id changes nothing; validity is preserved |
| `Planogram.State.Remove` | app.js:203-206 | the items become the list without that id; validity is preserved |
| `Planogram.State.Clear` | app.js:306-310 | no items remain; the library and settings are unchanged |

## Findings

| source | as written | input that shows it | evidently intended | confidence | as-written member | corrected member |
|---|---|---|---|---|---|---|
| app.js:124 | the card's visible label is `truncate(li.name, 18)` written into `innerHTML` without escaping, although the `title` attribute beside it is escaped | a library entry named `<b>`, such as an uploaded file or a URL of that name | `escapeHtml(truncate(li.name, 18))`, so the name shows as text | medium; not executed | `Planogram.LabelAsWrittenPassesMarkup` | `Planogram.Label` |

## Left out

- DOM work is not modelled. This covers creating and removing elements, styles, section and item labels, and the event-listener wiring. `RenderSections` returns the list of cells the loops would append.
- The pointer-capture lifecycle (`pointerdown`, `pointerup`, `hasPointerCapture`) is not modelled. `State.Drag` takes the drag-start position and the total pointer movement as parameters.
- Saving, loading and exporting are not modelled: `localStorage`, `JSON.parse`, `JSON.stringify`, `safeParseJSON`, and the `Math.round` in `exportJSON`. These are I/O and foreign parsing. `State.Drop` receives the parsed payload as `Option<DragPayload>`, with `None` when parsing failed.
- File upload (`FileReader`, `fileToDataUrl`) and the URL field (including its `trim` and the check that skips an empty URL) are not modelled. They are browser input. What they produce reaches the model as the arguments of `State.AddLibraryItem`.
- The `confirm` dialog of the clear button is not modelled. It is a modal browser prompt. `State.Clear` models the branch taken after `confirm` returns true; when it returns false, nothing changes.
- The clipboard copy, the timer that resets the copy button's text, the `alert` after a failed load and the export dialog are not modelled. They only touch the page and have no counterpart in the model.
- `uid()` is not modelled, because it mixes randomness with the clock. Ids are opaque strings supplied by the caller.
- The internals of `parseInt` are not modelled. Its outcome is an `Option<int>` parameter, with `None` standing for NaN.
- The start-up seeding of two demo library entries is not modelled. It is two calls to `State.AddLibraryItem` followed by `State.ApplyCanvasSettings`.
- Floating-point rounding is not modelled. Positions and grid divisions are exact reals, not IEEE-754 doubles.
- `Helpers.Truncate`: lengths count Dafny characters, not the UTF-16 code units that JavaScript's `length` counts.
- `State.Drag`, `State.Drop`: both require a canvas whose dimensions are at least 1, which every setting `applyCanvasSettings` produces. A canvas loaded from storage before the settings are re-applied is not modelled.
- `State.AddLibraryItem`: the default name `"Item"` of `addLibraryItem` is not modelled; every caller in `app.js` passes a name, so the model takes the name as a required argument.
