/**
 * The planogram editor's state: the canvas settings, the image library and the
 * items placed on the canvas, with the operations the editor's event handlers
 * perform on them. Identifiers are opaque strings chosen by the caller.
 */
module Planogram {
  import opened Helpers
  import opened Grid

  type Id = string

  /** An image the user can place. */
  datatype LibraryEntry = LibraryEntry(id: Id, src: string, name: string)

  /** An image placed on the canvas: top-left corner, size, and the section recorded for it. */
  datatype Item = Item(id: Id, src: string, x: real, y: real, w: real, h: real, section: Section)

  /** The payload a library card puts on a drag: its kind and the library id. */
  datatype DragPayload = DragPayload(kind: string, id: Id)

  /** Side of a newly placed item, in pixels. */
  const ItemSize: real := 110.0

  /** Half the side of a newly placed item: a drop centres the item on the drop point. */
  const HalfItem: real := 55.0

  const MinSide: int := 200
  const MaxSide: int := 20000
  const MaxDivisions: int := 200

  /** The settings `applyCanvasSettings` can produce. */
  predicate SettingsInRange(cv: Canvas) {
    MinSide <= cv.width <= MaxSide && MinSide <= cv.height <= MaxSide &&
    1 <= cv.rows <= MaxDivisions && 1 <= cv.cols <= MaxDivisions
  }

  /** The item lies wholly on the canvas. */
  predicate Fits(it: Item, cv: Canvas) {
    0.0 <= it.x <= cv.width as real - it.w && 0.0 <= it.y <= cv.height as real - it.h
  }

  /** The canvas settings the four text inputs give, each parsed and clamped. */
  function SettingsFrom(width: Option<int>, height: Option<int>, rows: Option<int>, cols: Option<int>): (cv: Canvas)
    ensures SettingsInRange(cv)
    ensures width.None? ==> cv.width == MinSide
    ensures width.Some? && width.value <= MinSide ==> cv.width == MinSide
    ensures width.Some? && MinSide <= width.value <= MaxSide ==> cv.width == width.value
    ensures width.Some? && MaxSide <= width.value ==> cv.width == MaxSide
    ensures height.None? ==> cv.height == MinSide
    ensures height.Some? && height.value <= MinSide ==> cv.height == MinSide
    ensures height.Some? && MinSide <= height.value <= MaxSide ==> cv.height == height.value
    ensures height.Some? && MaxSide <= height.value ==> cv.height == MaxSide
    ensures rows.None? ==> cv.rows == 1
    ensures rows.Some? && rows.value <= 1 ==> cv.rows == 1
    ensures rows.Some? && 1 <= rows.value <= MaxDivisions ==> cv.rows == rows.value
    ensures rows.Some? && MaxDivisions <= rows.value ==> cv.rows == MaxDivisions
    ensures cols.None? ==> cv.cols == 1
    ensures cols.Some? && cols.value <= 1 ==> cv.cols == 1
    ensures cols.Some? && 1 <= cols.value <= MaxDivisions ==> cv.cols == cols.value
    ensures cols.Some? && MaxDivisions <= cols.value ==> cv.cols == MaxDivisions
  {
    Canvas(ClampInt(width, MinSide, MaxSide), ClampInt(height, MinSide, MaxSide),
           ClampInt(rows, 1, MaxDivisions), ClampInt(cols, 1, MaxDivisions))
  }

  /** Settings in range have no section narrower than a pixel. */
  lemma SettingsHaveWholePixelCells(cv: Canvas)
    requires SettingsInRange(cv)
    ensures cv.WholePixelCells()
  {
  }

  // ---------- Resize ----------

  /** One step of the resize loop: the item's corner clamped back onto the canvas. */
  function Reclamped(it: Item, cv: Canvas): (r: Item)
    ensures r.(x := it.x, y := it.y) == it
    ensures 0.0 <= r.x && 0.0 <= r.y
    ensures it.w <= cv.width as real ==> r.x <= cv.width as real - it.w
    ensures it.h <= cv.height as real ==> r.y <= cv.height as real - it.h
    ensures 0.0 <= it.x <= cv.width as real - it.w ==> r.x == it.x
    ensures 0.0 <= it.y <= cv.height as real - it.h ==> r.y == it.y
    ensures it.x <= 0.0 ==> r.x == 0.0
    ensures it.y <= 0.0 ==> r.y == 0.0
    ensures it.w <= cv.width as real && cv.width as real - it.w <= it.x ==> r.x == cv.width as real - it.w
    ensures it.h <= cv.height as real && cv.height as real - it.h <= it.y ==> r.y == cv.height as real - it.h
  {
    it.(x := Clamp(it.x, 0.0, cv.width as real - it.w), y := Clamp(it.y, 0.0, cv.height as real - it.h))
  }

  /**
   * After a resize an item no larger than the canvas lies on it, and only its
   * position may have changed: in particular its section is not recomputed.
   */
  lemma ReclampedFits(it: Item, cv: Canvas)
    requires 0.0 <= it.w <= cv.width as real && 0.0 <= it.h <= cv.height as real
    ensures Fits(Reclamped(it, cv), cv)
    ensures var r := Reclamped(it, cv);
      r.id == it.id && r.src == it.src && r.w == it.w && r.h == it.h && r.section == it.section
  {
  }

  /** An item already on the canvas is left where it is. */
  lemma ReclampedKeepsFitting(it: Item, cv: Canvas)
    requires Fits(it, cv)
    ensures Reclamped(it, cv) == it
  {
  }

  /** Applying the same settings twice moves nothing the first time did not. */
  lemma ReclampedIdempotent(it: Item, cv: Canvas)
    ensures Reclamped(Reclamped(it, cv), cv) == Reclamped(it, cv)
  {
    ClampIdempotent(it.x, 0.0, cv.width as real - it.w);
    ClampIdempotent(it.y, 0.0, cv.height as real - it.h);
  }

  /**
   * The resize does not recompute sections, so after the grid shrinks an item
   * can keep a section the grid no longer has.
   */
  lemma ResizeKeepsStaleSection()
    ensures var it := Item("a", "img", 1000.0, 2000.0, ItemSize, ItemSize, Section(5, 2));
      var cv := Canvas(1240, 2438, 1, 1);
      Reclamped(it, cv).section == Section(5, 2) && Reclamped(it, cv).section.r >= cv.rows
  {
  }

  // ---------- Library and drop ----------

  /** `library.find(l => l.id === id)`: the first entry with that id. */
  function FindEntry(library: seq<LibraryEntry>, id: Id): (r: Option<LibraryEntry>)
    ensures r.Some? ==> r.value.id == id && exists i :: (0 <= i < |library| && library[i] == r.value &&
                                                         forall j :: 0 <= j < i ==> library[j].id != id)
    ensures r.None? <==> forall i :: 0 <= i < |library| ==> library[i].id != id
  {
    if library == [] then None
    else if library[0].id == id then Some(library[0])
    else
      var r := FindEntry(library[1..], id);
      assert forall j :: 1 <= j < |library| ==> library[j] == library[1..][j - 1];
      r
  }

  /**
   * The library entry a drop places: the payload must have parsed, be of kind
   * "library" and name an entry that exists.
   */
  function DropEntry(data: Option<DragPayload>, library: seq<LibraryEntry>): (r: Option<LibraryEntry>)
    ensures r.Some? <==> (data.Some? && data.value.kind == "library" &&
                          exists i :: 0 <= i < |library| && library[i].id == data.value.id)
    ensures r.Some? ==> r.value in library && r.value.id == data.value.id
  {
    match data
    case None => None
    case Some(p) => if p.kind == "library" then FindEntry(library, p.id) else None
  }

  /**
   * The item a drop at `(x, y)` creates: 110 x 110, centred on the drop point
   * and clamped onto the canvas, with the section of the drop point itself.
   */
  function Placed(cv: Canvas, id: Id, src: string, x: real, y: real): (it: Item)
    requires cv.Positive()
    ensures it.id == id && it.src == src && it.w == ItemSize && it.h == ItemSize
    ensures 0.0 <= it.x && 0.0 <= it.y
    ensures ItemSize <= cv.width as real ==> it.x <= cv.width as real - ItemSize
    ensures ItemSize <= cv.height as real ==> it.y <= cv.height as real - ItemSize
    ensures HalfItem <= x <= cv.width as real - HalfItem ==> it.x + HalfItem == x
    ensures HalfItem <= y <= cv.height as real - HalfItem ==> it.y + HalfItem == y
    ensures x <= HalfItem ==> it.x == 0.0
    ensures y <= HalfItem ==> it.y == 0.0
    ensures ItemSize <= cv.width as real && cv.width as real - HalfItem <= x ==> it.x == cv.width as real - ItemSize
    ensures ItemSize <= cv.height as real && cv.height as real - HalfItem <= y ==> it.y == cv.height as real - ItemSize
    ensures 0 <= it.section.r < cv.rows && 0 <= it.section.c < cv.cols
  {
    Item(id, src, Clamp(x - HalfItem, 0.0, cv.width as real - ItemSize),
         Clamp(y - HalfItem, 0.0, cv.height as real - ItemSize), ItemSize, ItemSize,
         GetSectionForPoint(cv, x, y))
  }

  /**
   * A placed item lies on a canvas at least 110 pixels each way, its section
   * is a section of the grid, and for a drop point on the canvas the section's
   * rectangle holds the drop point. A drop far enough from the edges is not
   * shifted: the item's centre is the drop point.
   */
  lemma PlacedProperties(cv: Canvas, id: Id, src: string, x: real, y: real)
    requires cv.WholePixelCells() && ItemSize <= cv.width as real && ItemSize <= cv.height as real
    ensures var it := Placed(cv, id, src, x, y);
      Fits(it, cv) && it.w == ItemSize && it.h == ItemSize && it.id == id && it.src == src &&
      0 <= it.section.r < cv.rows && 0 <= it.section.c < cv.cols
    ensures var it := Placed(cv, id, src, x, y);
      0.0 <= x < cv.width as real && 0.0 <= y < cv.height as real ==>
      Contains(SectionRect(cv, it.section.r, it.section.c), x, y)
    ensures var it := Placed(cv, id, src, x, y);
      HalfItem <= x <= cv.width as real - HalfItem && HalfItem <= y <= cv.height as real - HalfItem ==>
      it.x + it.w / 2.0 == x && it.y + it.h / 2.0 == y
  {
    if 0.0 <= x < cv.width as real && 0.0 <= y < cv.height as real {
      SectionContainsPoint(cv, x, y);
    }
  }

  /** A drop at (500, 500) on the default canvas gives an item at (445, 445) in row 1, column 1. */
  lemma DropOnDefaultCanvas()
    ensures Placed(Canvas(1240, 2438, 6, 3), "n", "img", 500.0, 500.0)
         == Item("n", "img", 445.0, 445.0, ItemSize, ItemSize, Section(1, 1))
  {
  }

  // ---------- Drag ----------

  /** `items.find(x => x.id === id)`, as the position of the first item with that id. */
  function FindItem(items: seq<Item>, id: Id): (r: Option<nat>)
    ensures r.Some? ==> (r.value < |items| && items[r.value].id == id &&
                         forall j :: 0 <= j < r.value ==> items[j].id != id)
    ensures r.None? <==> forall i :: 0 <= i < |items| ==> items[i].id != id
  {
    if items == [] then None
    else if items[0].id == id then Some(0)
    else
      match FindItem(items[1..], id)
      case None => None
      case Some(i) => Some(i + 1)
  }

  /**
   * One pointer move of a drag: the corner is the drag-start position plus the
   * pointer's total movement, clamped onto the canvas, and the section is
   * recomputed from the item's centre.
   */
  function Moved(it: Item, cv: Canvas, baseX: real, baseY: real, dx: real, dy: real): (m: Item)
    requires cv.Positive()
    ensures m.(x := it.x, y := it.y, section := it.section) == it
    ensures 0.0 <= m.x && 0.0 <= m.y
    ensures it.w <= cv.width as real ==> m.x <= cv.width as real - it.w
    ensures it.h <= cv.height as real ==> m.y <= cv.height as real - it.h
    ensures 0.0 <= baseX + dx <= cv.width as real - it.w ==> m.x == baseX + dx
    ensures 0.0 <= baseY + dy <= cv.height as real - it.h ==> m.y == baseY + dy
    ensures baseX + dx <= 0.0 ==> m.x == 0.0
    ensures baseY + dy <= 0.0 ==> m.y == 0.0
    ensures it.w <= cv.width as real && cv.width as real - it.w <= baseX + dx ==> m.x == cv.width as real - it.w
    ensures it.h <= cv.height as real && cv.height as real - it.h <= baseY + dy ==> m.y == cv.height as real - it.h
    ensures 0 <= m.section.r < cv.rows && 0 <= m.section.c < cv.cols
  {
    var x := Clamp(baseX + dx, 0.0, cv.width as real - it.w);
    var y := Clamp(baseY + dy, 0.0, cv.height as real - it.h);
    it.(x := x, y := y, section := GetSectionForPoint(cv, x + it.w / 2.0, y + it.h / 2.0))
  }

  /**
   * A dragged item no larger than the canvas stays on it, keeps its identity,
   * image and size, and records a section of the grid whose rectangle holds
   * the item's centre.
   */
  lemma MovedFits(it: Item, cv: Canvas, baseX: real, baseY: real, dx: real, dy: real)
    requires cv.WholePixelCells()
    requires 0.0 < it.w <= cv.width as real && 0.0 < it.h <= cv.height as real
    ensures var m := Moved(it, cv, baseX, baseY, dx, dy);
      Fits(m, cv) && m.id == it.id && m.src == it.src && m.w == it.w && m.h == it.h &&
      0 <= m.section.r < cv.rows && 0 <= m.section.c < cv.cols &&
      Contains(SectionRect(cv, m.section.r, m.section.c), m.x + m.w / 2.0, m.y + m.h / 2.0)
  {
    var m := Moved(it, cv, baseX, baseY, dx, dy);
    SectionContainsPoint(cv, m.x + m.w / 2.0, m.y + m.h / 2.0);
  }

  /**
   * Moves do not accumulate: whatever earlier moves of the same drag did, the
   * item ends where the drag-start position and the latest total movement put it.
   */
  lemma MovedForgetsEarlierMoves(it: Item, cv: Canvas, baseX: real, baseY: real, dx1: real, dy1: real, dx2: real, dy2: real)
    requires cv.Positive()
    ensures Moved(Moved(it, cv, baseX, baseY, dx1, dy1), cv, baseX, baseY, dx2, dy2)
         == Moved(it, cv, baseX, baseY, dx2, dy2)
  {
  }

  // ---------- Removal ----------

  /** `items.filter(x => x.id !== id)`. */
  function WithoutId(items: seq<Item>, id: Id): (r: seq<Item>)
    ensures |r| <= |items|
    ensures forall i :: 0 <= i < |r| ==> r[i].id != id && r[i] in items
  {
    if items == [] then []
    else if items[0].id == id then WithoutId(items[1..], id)
    else [items[0]] + WithoutId(items[1..], id)
  }

  /** Every item whose id differs is kept. */
  lemma {:induction false} WithoutIdKeepsOthers(items: seq<Item>, id: Id, it: Item)
    requires it in items && it.id != id
    ensures it in WithoutId(items, id)
  {
    if items[0] != it {
      WithoutIdKeepsOthers(items[1..], id, it);
    }
  }

  /** Removal works piecewise, so the kept items stay in their original order. */
  lemma {:induction false} WithoutIdAppend(a: seq<Item>, b: seq<Item>, id: Id)
    ensures WithoutId(a + b, id) == WithoutId(a, id) + WithoutId(b, id)
  {
    if a == [] {
      assert a + b == b;
    } else {
      assert (a + b)[0] == a[0] && (a + b)[1..] == a[1..] + b;
      WithoutIdAppend(a[1..], b, id);
    }
  }

  /** Removing an id no item has changes nothing. */
  lemma {:induction false} WithoutIdAbsent(items: seq<Item>, id: Id)
    requires forall i :: 0 <= i < |items| ==> items[i].id != id
    ensures WithoutId(items, id) == items
  {
    if items != [] {
      WithoutIdAbsent(items[1..], id);
    }
  }

  /** Removing the same id a second time changes nothing. */
  lemma WithoutIdIdempotent(items: seq<Item>, id: Id)
    ensures WithoutId(WithoutId(items, id), id) == WithoutId(items, id)
  {
    WithoutIdAbsent(WithoutId(items, id), id);
  }

  // ---------- Library rendering ----------

  /**
   * The visible label `renderLibrary` writes into the card's HTML: the
   * entry's name cut to 18 characters, inserted without escaping.
   */
  function LabelAsWritten(name: string): (r: string)
    ensures |name| <= 18 ==> r == name
    ensures 18 < |name| ==> |r| == 18 && r[..17] == name[..17] && r[17] == Ellipsis
  {
    Truncate(name, 18)
  }

  /** A name that contains markup reaches the card's HTML as markup. */
  lemma LabelAsWrittenPassesMarkup()
    ensures !HtmlSafe(LabelAsWritten("<b>"))
  {
    assert LabelAsWritten("<b>")[0] == '<';
  }

  /**
   * The label with the escaping the card's title attribute already gets: it
   * carries no markup, and it reads back as exactly the truncated name.
   */
  function Label(name: string): (r: string)
    ensures HtmlSafe(r)
    ensures UnescapeHtml(r) == Truncate(name, 18)
  {
    EscapeRoundTrip(Truncate(name, 18));
    EscapeHtml(Truncate(name, 18))
  }

  // ---------- The editor state ----------

  class State {
    var canvas: Canvas
    var library: seq<LibraryEntry>
    var items: seq<Item>

    /**
     * The settings are ones `applyCanvasSettings` produces, and every item is
     * a 110 x 110 item lying on the canvas.
     */
    ghost predicate Valid()
      reads this
    {
      SettingsInRange(canvas) &&
      forall i :: 0 <= i < |items| ==> items[i].w == ItemSize && items[i].h == ItemSize && Fits(items[i], canvas)
    }

    /** The initial state: a 1240 x 2438 canvas of 6 rows and 3 columns, nothing in the library or on the canvas. */
    constructor ()
      ensures canvas == Canvas(1240, 2438, 6, 3) && library == [] && items == []
      ensures Valid()
    {
      canvas := Canvas(1240, 2438, 6, 3);
      library := [];
      items := [];
    }

    /**
     * `applyCanvasSettings`: the four inputs, as `parseInt` read them, become
     * the new settings, and every item is clamped back onto the new canvas in
     * place. Sections are not recomputed; order, ids, sizes and the library
     * are unchanged.
     */
    method ApplyCanvasSettings(width: Option<int>, height: Option<int>, rows: Option<int>, cols: Option<int>)
      modifies this
      ensures canvas == SettingsFrom(width, height, rows, cols)
      ensures library == old(library)
      ensures |items| == |old(items)|
      ensures forall i :: 0 <= i < |items| ==> items[i] == Reclamped(old(items)[i], canvas)
      ensures (forall i :: 0 <= i < |old(items)| ==> old(items)[i].w == ItemSize && old(items)[i].h == ItemSize) ==> Valid()
    {
      canvas := SettingsFrom(width, height, rows, cols);
      var i := 0;
      while i < |items|
        invariant 0 <= i <= |items| == |old(items)|
        invariant canvas == SettingsFrom(width, height, rows, cols) && library == old(library)
        invariant forall j :: 0 <= j < i ==> items[j] == Reclamped(old(items)[j], canvas)
        invariant forall j :: i <= j < |items| ==> items[j] == old(items)[j]
      {
        items := items[i := Reclamped(items[i], canvas)];
        i := i + 1;
      }
      forall j | 0 <= j < |items| && old(items)[j].w == ItemSize && old(items)[j].h == ItemSize
        ensures Fits(items[j], canvas)
      {
        ReclampedFits(old(items)[j], canvas);
      }
    }

    /**
     * `addLibraryItem(src, name)`: a new entry goes to the front of the library.
     */
    method AddLibraryItem(id: Id, src: string, name: string)
      modifies this
      ensures library == [LibraryEntry(id, src, name)] + old(library)
      ensures canvas == old(canvas) && items == old(items)
      ensures old(Valid()) ==> Valid()
    {
      library := [LibraryEntry(id, src, name)] + library;
    }

    /**
     * The drop handler: a drop of a library card at `(x, y)` appends one new
     * item for that entry; a payload that did not parse, is of another kind,
     * or names no library entry changes nothing.
     */
    method Drop(data: Option<DragPayload>, x: real, y: real, newId: Id)
      requires canvas.Positive()
      modifies this
      ensures canvas == old(canvas) && library == old(library)
      ensures match DropEntry(data, library)
        case None => items == old(items)
        case Some(entry) => items == old(items) + [Placed(canvas, newId, entry.src, x, y)]
      ensures old(Valid()) ==> Valid()
    {
      if data.None? || data.value.kind != "library" {
        return;
      }
      var entry := FindEntry(library, data.value.id);
      if entry.None? {
        return;
      }
      var item := Placed(canvas, newId, entry.value.src, x, y);
      items := items + [item];
      if old(Valid()) {
        PlacedProperties(canvas, newId, entry.value.src, x, y);
      }
    }

    /**
     * A pointer move during a drag: the first item with that id moves to the
     * drag-start position plus the total movement, clamped, with its section
     * recomputed from its centre. Every other item, and everything else, is
     * unchanged; an id no item has changes nothing.
     */
    method Drag(id: Id, baseX: real, baseY: real, dx: real, dy: real)
      requires canvas.Positive()
      modifies this
      ensures canvas == old(canvas) && library == old(library)
      ensures match FindItem(old(items), id)
        case None => items == old(items)
        case Some(i) => items == old(items)[i := Moved(old(items)[i], canvas, baseX, baseY, dx, dy)]
      ensures old(Valid()) ==> Valid()
    {
      var found := FindItem(items, id);
      if found.None? {
        return;
      }
      var i := found.value;
      items := items[i := Moved(items[i], canvas, baseX, baseY, dx, dy)];
      if old(Valid()) {
        MovedFits(old(items)[i], canvas, baseX, baseY, dx, dy);
      }
    }

    /** The double-click handler: every item with that id leaves the canvas. */
    method Remove(id: Id)
      modifies this
      ensures items == WithoutId(old(items), id)
      ensures canvas == old(canvas) && library == old(library)
      ensures old(Valid()) ==> Valid()
    {
      items := WithoutId(items, id);
    }

    /** The clear button: no items remain; the library and settings stay. */
    method Clear()
      modifies this
      ensures items == []
      ensures canvas == old(canvas) && library == old(library)
      ensures old(Valid()) ==> Valid()
    {
      items := [];
    }
  }
}
