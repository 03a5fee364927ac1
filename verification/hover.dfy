/** What hovering a segment does: the rectangle grows, the tooltip is given a
    position computed from the segment's interval, and leaving restores the
    rectangle. */
module Hover {
  import opened Segments
  import opened Layout
  import opened Lookup

  const GROW_PX: real := 5.0
  const TOOLTIP_WIDTH: real := 120.0

  /** The `x`, `y`, `width` and `height` attributes of a `<rect>`, relative to
      its node group. */
  datatype Rect = Rect(x: real, y: real, width: real, height: real)

  /** The rectangle as the join draws it and as `mouseOut` puts it back. */
  function RestingRect(p: Placed): Rect
  {
    Rect(0.0, 0.0, p.width, p.height)
  }

  /** `mouseOut(rect)` */
  function MouseOut(p: Placed): Rect
  {
    RestingRect(p)
  }

  // ---------------------------------------------------------------------------
  // Growing the rectangle
  // ---------------------------------------------------------------------------

  /** `mouseOver` as written: moved up and left by `growPx`, but only
      `growPx` wider, though `2 * growPx` taller. */
  function HoverRectAsWritten(p: Placed): Rect
  {
    Rect(-GROW_PX, -GROW_PX, p.width + GROW_PX, p.height + GROW_PX * 2.0)
  }

  /** As written, the right edge does not move: the rectangle grows by
      `growPx` on the left, top and bottom only, and its centre shifts left. */
  lemma {:induction false} HoverAsWrittenKeepsRightEdge(p: Placed)
    ensures var h := HoverRectAsWritten(p);
      var r := RestingRect(p);
      && h.x == r.x - GROW_PX
      && h.x + h.width == r.x + r.width
      && h.y == r.y - GROW_PX
      && h.y + h.height == r.y + r.height + GROW_PX
      && h.x + h.width / 2.0 == r.x + r.width / 2.0 - GROW_PX / 2.0
  {
  }

  /** The rectangle grown by `growPx` on every side. */
  function HoverRect(p: Placed): Rect
  {
    Rect(-GROW_PX, -GROW_PX, p.width + GROW_PX * 2.0, p.height + GROW_PX * 2.0)
  }

  /** Every edge moves out by `growPx`, so the centre stays put. */
  lemma {:induction false} HoverGrowsEvenly(p: Placed)
    ensures var h := HoverRect(p);
      var r := RestingRect(p);
      && h.x == r.x - GROW_PX && h.x + h.width == r.x + r.width + GROW_PX
      && h.y == r.y - GROW_PX && h.y + h.height == r.y + r.height + GROW_PX
      && h.x + h.width / 2.0 == r.x + r.width / 2.0
      && h.y + h.height / 2.0 == r.y + r.height / 2.0
  {
  }

  // ---------------------------------------------------------------------------
  // Which rectangle grows
  // ---------------------------------------------------------------------------

  /** `d3.select(`.node-${key} rect`)` as written: the first node group with
      that class in document order. The groups were appended row by row, key
      by key, so that is the first row holding the key, whichever row was
      hovered. */
  function HoverTargetAsWritten(rows: seq<Row>, key: string): (t: Option<(nat, nat)>)
    ensures t.None? <==> forall j | 0 <= j < |rows| :: !HasKey(rows[j], key)
    ensures t.Some? ==> t.value.0 < |rows| && t.value.1 < |rows[t.value.0]| && rows[t.value.0][t.value.1].key == key
  {
    match FirstRowWith(rows, key)
    case None => None
    case Some(r) => Some((r, IndexOf(rows[r], key)))
  }

  /** As written, hovering key `key` in row `r` reaches row `r` only when no
      earlier row holds `key`. */
  lemma {:induction false} HoverTargetAsWrittenIsFirstRow(rows: seq<Row>, r: nat, key: string)
    requires r < |rows| && HasKey(rows[r], key)
    ensures HoverTargetAsWritten(rows, key).Some?
    ensures HoverTargetAsWritten(rows, key).value.0 == r
        <==> forall j | 0 <= j < r :: !HasKey(rows[j], key)
  {
  }

  /** Two rows that both hold `SIDS`: hovering `SIDS` in the second row grows
      the rectangle of the first. */
  lemma {:induction false} HoverTargetAsWrittenMissesSecondRow(a: Segment, b: Segment)
    ensures var rows := [[Entry("SIDS", a)], [Entry("SIDS", b)]];
      HoverTargetAsWritten(rows, "SIDS") == Some((0, 0))
  {
    var first: Row := [Entry("SIDS", a)];
    assert first[0].key == "SIDS";
  }

  /** The rectangle the hover is meant for: the hovered row's own segment. */
  function HoverTarget(rows: seq<Row>, r: nat, key: string): (t: (nat, nat))
    requires r < |rows| && HasKey(rows[r], key)
    ensures t.0 == r && t.1 < |rows[r]| && rows[r][t.1].key == key
  {
    (r, IndexOf(rows[r], key))
  }

  // ---------------------------------------------------------------------------
  // The tooltip
  // ---------------------------------------------------------------------------

  /** `getCoords(x0 + (x1 - x0) / 2 - tooltipWidth / 2, 0, data[key], index)` */
  function TooltipAt(row: Row, total: real, width: real, i: nat): Point
    requires i < |row|
  {
    var node := Stack(row, total, width)[i];
    Coords(node.x0 + (node.x1 - node.x0) / 2.0 - TOOLTIP_WIDTH / 2.0, 0.0, row[i].seg, i, total, width)
  }

  /** The numbers handed to the tooltip's `left` and `top`: the group's x plus
      half the rectangle's width, less `tooltipWidth / 2`, and the group's y.
      They are inner-group coordinates that the handler writes as CSS pixels. */
  lemma {:induction false} TooltipAnchoredAtCentre(row: Row, total: real, width: real, rectHeight: real, i: nat)
    requires i < |row|
    ensures var p := Render(row, total, width, rectHeight)[i];
      var t := TooltipAt(row, total, width, i);
      t.x == p.x + p.width / 2.0 - TOOLTIP_WIDTH / 2.0 && t.y == p.y
  {
  }

  /** What hovering key `key` in row `r` shows: the grown rectangle of that
      segment, the tooltip, and the tooltip's `key: value` text. */
  datatype HoverView = HoverView(target: (nat, nat), rect: Rect, tooltip: Point, text: (string, real))

  function MouseOver(rows: seq<Row>, width: real, rectHeight: real, r: nat, key: string): (v: HoverView)
    requires r < |rows| && HasKey(rows[r], key)
  {
    var t := HoverTarget(rows, r, key);
    var row := rows[r];
    var total := TotalValue(row);
    var p := Render(row, total, width, rectHeight)[t.1];
    HoverView(t, HoverRect(p), TooltipAt(row, total, width, t.1), (key, row[t.1].seg.value))
  }

  /** Hovering grows the hovered segment evenly, anchors the tooltip's numbers
      at its centre less `tooltipWidth / 2`, labels it with its own key and
      value, and leaving restores it. */
  lemma {:induction false} MouseOverShowsHoveredSegment(rows: seq<Row>, width: real, rectHeight: real, r: nat, key: string)
    requires r < |rows| && HasKey(rows[r], key)
    ensures var v := MouseOver(rows, width, rectHeight, r, key);
      var i := IndexOf(rows[r], key);
      var p := Render(rows[r], TotalValue(rows[r]), width, rectHeight)[i];
      && v.target == (r, i)
      && v.rect.x + v.rect.width / 2.0 == p.width / 2.0
      && v.rect.y + v.rect.height / 2.0 == p.height / 2.0
      && v.tooltip.x == p.x + p.width / 2.0 - TOOLTIP_WIDTH / 2.0
      && v.tooltip.y == p.y
      && v.text == (key, rows[r][i].seg.value)
      && MouseOut(p) == Rect(0.0, 0.0, p.width, rectHeight)
  {
  }
}
