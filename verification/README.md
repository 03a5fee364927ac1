# Stacked bar chart layout, in Dafny

`index.js` exports `StackedBarChart({data}, options)`. It draws one horizontal
stacked bar per row of `data`. A row is an object from segment keys to segment
objects `{value, overlap?, color}`. Drawing a row (`updateRects`) works in three
steps:

1. One pass over the row's keys computes `totalValue = Σ (value - (overlap || 0))`.
   The same pass writes the running `totalOverlap` onto each segment as
   `accumOverlap`.
2. The scaled full values are stacked with `d3.stack` into intervals `[x0, x1)`.
3. Each segment's rectangle is drawn at `x0 - xScale(accumOverlap)`, so an
   overlapping segment slides left over the ones before it. It is also dropped
   6 px per position in the row.

Before any of this, `updateChart` gives every segment its row's band `y` (from a
band scale) and its row index. The object returned by `StackedBarChart` offers:

- `update(dd)`: spreads a patch over one segment and lays that row out again.
- `on('nodeClick', …)`: reads the row index back out of the clicked group's id
  `node-${row}`.

Hovering a segment grows its rectangle and shows a tooltip. The module-level
helper `findRowValueByKey` finds the row of the first row object holding a key.

The model has these modules:

- `Segments` (segments.dfy): a row is an explicit ordered sequence of
  `Entry(key, Segment)`, and numbers are `real`.
- `Layout` (layout.dfy): the sums, the running overlap, the linear x scale, the
  stack and the geometry of one row, as functions with lemmas.
- `Patches` (patches.dfy): the object spread of `update` and the patched data,
  as functions.
- `Chart` (chart.dfy): the y band scale and the class `StackedBarChart`. The
  class holds the mutable rows and the geometry last rendered for each row.
  `updateChart`, `updateRects` and `update` are methods that change them. The
  loop of `updateRects` is a method with its invariants.
- `Lookup` (lookup.dfy): `findRowValueByKey` as a loop, proved against a
  function.
- `NodeIds` (node_ids.dfy): the id `node-${row}`, `split('-')` and the numeric
  conversion.
- `Hover` (hover.dfy): the hover rectangle, the tooltip position and which
  rectangle a hover reaches.

Two points of the code decide the shape of the model:

- **What is stacked.** `d3.stack` runs over the scaled full values
  (index.js:75-82), not over `value - overlap`. Each rectangle is then shifted
  left by the scaled running overlap (index.js:252-253). So rectangle `i` ends at
  the scaled net sum up to and including `i` (`RenderRightEdge`). It starts at
  the scaled net sum before `i`, less the scaled overlap of `i` alone
  (`RenderLeftEdge`).
- **A row whose `totalValue` is 0.** The code builds
  `d3.scaleLinear().domain([0, 0])`. d3 maps every value of a collapsed domain
  to the middle of the range, and `XScale` does the same. The lemmas about
  edges assume `totalValue ≠ 0`.

The enter and update branches of the three joins in `updateRects` set the same
group translations, rectangle widths, label positions, label visibility and
value text. So one function, `Render`, gives that geometry for both. The fill
and stroke of a rectangle are set only in the enter branch (index.js:105-106).
The update branch (index.js:113-128) never repaints them. The class therefore
keeps the painted colours apart from the geometry, in `fills`:

- `UpdateChart` paints every rectangle with its segment's colour, since every
  group of a row enters on that first pass.
- `Update` never repaints. A patch carrying a `color` changes the segment but
  not the drawn rectangle.

## Model

| member | source | states |
|---|---|---|
| Segments.OverlapOf | index.js:66-67 | `overlap \|\| 0`: a missing overlap counts as 0 |
| Segments.Net | index.js:66 | the amount a segment adds to `totalValue`: `value - (overlap \|\| 0)`; `TotalValueSplits` states the sum it builds |
| Segments.HasKey | index.js:65 | `hasOwnProperty(key)`: some entry of the row holds the key; the same test decides `findRowValueByKey` (index.js:344) and whether `update` finds its segment |
| Segments.IndexOf | index.js:320 | `data[row][dd.key]` finds the entry holding the key, and no earlier entry holds it |
| Segments.IndexOfSameKeys | index.js:64-69 | rows listing the same keys in the same order find a key at the same position, so re-running the layout loop does not move a key |
| Layout.TotalValue | index.js:62-66 | the `totalValue` accumulator: Σ `value - (overlap \|\| 0)` over the row in key order; `TotalValueSplits` and `AccumulateOverlaps` state what it is |
| Layout.TotalOverlap | index.js:63-67 | the `totalOverlap` accumulator: Σ `overlap \|\| 0` over the row in key order; `TotalOverlapGrows` and `AccumulateOverlaps` state what it is |
| Layout.TotalValueSplits | index.js:62-67 | `totalValue` is Σ value less Σ `overlap \|\| 0`: the full-value stack ends exactly `totalOverlap` past the net space |
| Layout.SumsReadOnlyAmounts | index.js:64-69 | `totalValue` and `totalOverlap` read only `value` and `overlap`, so writing `y`, `row` or `accumOverlap` onto segments leaves them unchanged |
| Layout.TotalOverlapGrows | index.js:67 | with no negative overlap, the running `totalOverlap` never decreases along the row |
| Layout.TotalOverlapStep | index.js:66-67 | one loop step adds the segment's `value - (overlap \|\| 0)` to `totalValue` and its `overlap \|\| 0` to `totalOverlap` |
| Layout.Accumulated | index.js:64-69 | the loop keeps every key, value and overlap, and writes only `accumOverlap` |
| Layout.AccumulatedIsFresh | index.js:68 | after the loop, each segment's `accumOverlap` is the overlap summed over it and every segment before it |
| Layout.FreshIsFixedPoint | index.js:64-69 | a row's `accumOverlap` fields are current exactly when running the loop again leaves the row unchanged |
| Layout.AccumOverlapRuns | index.js:67-68 | with no negative overlap, `accumOverlap` is non-decreasing along the row, and the last one equals `totalOverlap` |
| Layout.AccumulatedIdempotent | index.js:64-69 | the loop never reads a stale `accumOverlap`: running it twice is the same as running it once |
| Layout.XScale | index.js:72 | `d3.scaleLinear().domain([0, totalValue]).range([0, width])`: `width * v / totalValue`, or `width / 2` for a collapsed domain; `XScaleAdds` and `XScaleFull` state its laws |
| Layout.XScaleAdds | index.js:72 | the linear scale from `[0, totalValue]` to `[0, width]` preserves sums and differences |
| Layout.XScaleFull | index.js:72 | the scale maps `totalValue` to `width` |
| Layout.Stack | index.js:75-82 | there is one interval per key, and the first starts at 0 |
| Layout.StackAt | index.js:75-82 | interval `i` is `xScale(value_i)` wide and starts where interval `i - 1` ends |
| Layout.StackIsPrefixSum | index.js:75-82 | interval `i` runs from the scaled sum of the values before segment `i` to the scaled sum up to and including it |
| Layout.Coords | index.js:252-256 | `getCoords`: `x` shifted left by the scaled `accumOverlap`; `y` is `Y` plus the segment's band `y`, plus `6 * i` when its overlap is positive; `RenderPlacement` and the edge lemmas state what it gives |
| Layout.LabelVisible | index.js:163-165 | the visibility rule used at all four label sites: hidden when the width is under 80; `RenderPlacement` states it for both labels |
| Layout.Place | index.js:93-224 | the geometry of one segment from its interval: the group at `getCoords(x0, 0)`, the rectangle `x1 - x0` wide and `rectHeight` tall, the key label centred in it, the value label at `getCoords(x0 + w / 2, rectHeight)` dropped 10 px |
| Layout.Render | index.js:84-250 | one placed node per key, in key order, carrying its key and its `value` text |
| Layout.RenderLeftEdge | index.js:252-253 | in a laid-out row, rectangle `i` starts at the scaled net space of the segments before it, less the scaled overlap of `i` |
| Layout.RenderRightEdge | index.js:252-253 | in a laid-out row, rectangle `i` ends at the scaled net space of the segments up to and including it |
| Layout.RenderEndsAtWidth | index.js:72-103 | the last rectangle's right edge is exactly `width` |
| Layout.RenderFirstShift | index.js:252-253 | the first rectangle starts its own scaled overlap left of 0 |
| Layout.RenderOverlapShift | index.js:252-253 | each later rectangle starts its own scaled overlap left of where the one before it ends |
| Layout.RenderTilesWithoutOverlap | index.js:252-253 | without overlaps, the rectangles tile `[0, width]`: the first starts at 0, each starts where the one before ends, and the last ends at `width` |
| Layout.RenderPlacement | index.js:252-254 | the group's `y` is the segment's band `y`, plus `6 * i` only when its overlap is positive; the rectangle is `xScale(value)` wide and `rectHeight` tall; the key label is centred in it, and the value label sits centred 10 px below it; each label is visible exactly when the width is at least 80 |
| Layout.ScenarioPlain | index.js:60-105 | values 60 and 40 on 800 px give rectangles `[0, 480)` and `[480, 800)` |
| Layout.ScenarioOverlap | index.js:60-105 | values 50 and 50, the second with overlap 20, give a row 80 wide; the second rectangle starts 200 px left of where the first ends, 6 px lower, and ends at 800 |
| Patches.MergeIsSpread | index.js:320 | the merged segment's own properties are the old ones overridden by those the patch carries |
| Patches.Merge | index.js:320 | `{...old, ...dd}` on a segment: each field the patch carries wins, and `key` and `row` always come from the patch; `MergeIsSpread` states it as an object spread |
| Patches.PatchRow | index.js:320 | patching one segment keeps the row's keys and their order |
| Patches.Patched | index.js:319-321 | `update` keeps the number of rows |
| Patches.TotalOverlapReplaced | index.js:67 | replacing one segment changes the running overlap of every prefix that contains it by the change in that segment's overlap, and no other prefix |
| Patches.AccumulatedReplacedAt | index.js:320-321 | after one segment of a laid-out row is replaced and the row laid out again, segment `j` keeps its own fields, and its `accumOverlap` moves by the change in overlap only when `j` is at or after the replaced one |
| Patches.PatchFrame | index.js:319-321 | `update` changes only the named row; in it, earlier segments stay as they were, the named one is merged, and it and every later one move their `accumOverlap` by the change in overlap |
| Patches.PatchedTwice | index.js:319-321 | sending the same patch twice leaves the data as sending it once |
| Chart.BandsEvenlySpaced | index.js:40-44 | with `padding(0.1)`, consecutive row bands are one step apart |
| Chart.BandsFillRange | index.js:40-44 | for any number of rows, one included, the first band starts one padding step below 0, and the last band ends one padding step above `height` |
| Chart.YScale | index.js:40-44 | `yScale(row)` of `d3.scaleBand().domain(d3.range(0, n)).range([0, height]).padding(0.1)`: the outer space split evenly, then one step per row; `BandsEvenlySpaced` and `BandsFillRange` state its shape |
| Chart.Stamp | index.js:51-55 | stamping `y` and `row` keeps every key, value and overlap |
| Chart.Prepared | index.js:51-56 | one row as `updateChart` leaves it: stamped with its band and index, then laid out; `PreparedIsLaid` states its shape |
| Chart.PreparedIsLaid | index.js:50-57 | after `updateChart`, a row has distinct keys, current `accumOverlap`s, and the same `y` and `row` on every segment |
| Chart.PatchKeepsLaid | index.js:319-321 | `update` keeps the patched row in that laid-out state |
| Chart.StampRow | index.js:51-55 | the inner loop writes exactly what `Stamp` describes: every segment of the row gets the band `y` and the row index |
| Chart.AccumulateOverlaps | index.js:62-70 | the loop writes onto the row exactly what `Accumulated` describes, and it ends with `totalValue` and `totalOverlap` equal to the row's sums |
| Chart.Colors | index.js:105-106 | the `fill` and `stroke` the enter branch paints: one colour per rectangle, each its segment's `color` |
| Chart.StackedBarChart.constructor | index.js:40-46 | a new chart holds every row stamped and laid out, a rendering of each, and every rectangle painted with its segment's colour |
| Chart.StackedBarChart.UpdateChart | index.js:48-58 | every row is stamped with its band and index and laid out; every rectangle is painted with its segment's colour; the chart's invariant then holds |
| Chart.StackedBarChart.DrawRow | index.js:50-57 | one pass of `updateChart`'s loop changes only row `r`: it becomes `Prepared`, its rendering is replaced, and its rectangles are painted with its segments' colours |
| Chart.StackedBarChart.UpdateRects | index.js:60-82 | only the given row changes, and only by the layout loop; the geometry handed to the renderer is that row's `Render`; no colour is repainted |
| Chart.StackedBarChart.Update | index.js:315-321 | the patch succeeds exactly when its row exists and holds its key; on success the data become `Patched` and only that row is rendered again; on failure nothing changes; the painted colours never change; the invariant is kept |
| Lookup.FirstRowWith | index.js:343-347 | the result is the first row holding the key, and `None` exactly when no row holds it |
| Lookup.RowValueByKey | index.js:342-350 | the value `findRowValueByKey` returns: the `row` field of the key's segment in the first row holding it, or -1; `FindRowValueByKey` computes it and `RowValueIsFirstRow` states what it means |
| Lookup.FindRowValueByKey | index.js:342-350 | the loop returns the `row` field of the key's segment in the first row holding the key, or -1 |
| Lookup.RowValueIsFirstRow | index.js:342-350 | once `updateChart` has stamped the rows, the lookup is -1 exactly when no row holds the key, and otherwise it is the index of the first row that does |
| NodeIds.NatToString | index.js:92 | a row index prints as a non-empty string of decimal digits, with no leading zero unless the index is 0 |
| NodeIds.DigitsValueOfNatToString | index.js:92 | reading those digits back gives the index |
| NodeIds.ToNumber | index.js:330 | `+s` of the empty string is 0; a string of digits gives its decimal value (`DigitsValue`); a string holding a non-digit gives no number |
| NodeIds.IndexOfChar | index.js:330 | finds the first occurrence of the separator |
| NodeIds.Split | index.js:330 | `split` gives at least one piece; no piece holds the separator; the pieces joined with the separator give the string back |
| NodeIds.SplitJoin | index.js:330 | splitting undoes joining pieces that do not hold the separator |
| NodeIds.NodeId | index.js:92 | the id `node-${row}` of a node group |
| NodeIds.ParseRow | index.js:330 | `+id.split('-')[1]`, with `None` for an id with no second piece or a non-numeric one; `ParseRowOfNodeId` states that it inverts `NodeId` |
| NodeIds.ParseRowOfNodeId | index.js:330 | reading the row from the id `node-${row}` with `+id.split('-')[1]` gives `row` |
| Hover.RestingRect | index.js:101-104 | the rectangle as appended: at x and y 0, `x1 - x0` wide, `rectHeight` tall |
| Hover.HoverAsWrittenKeepsRightEdge | index.js:277-280 | as written, the hovered rectangle grows 5 px left, up and down, but its right edge stays, and its centre moves 2.5 px left |
| Hover.HoverRectAsWritten | index.js:271-280 | the rectangle as `mouseOver` sets it: x and y at -5, width `w + 5`, height `rectHeight + 10` |
| Hover.HoverGrowsEvenly | index.js:271-280 | the corrected hover rectangle grows 5 px on every side, so its centre stays put |
| Hover.HoverTargetAsWrittenIsFirstRow | index.js:262 | as written, hovering key `k` in row `r` reaches row `r` only when no earlier row holds `k` |
| Hover.HoverTargetAsWrittenMissesSecondRow | index.js:262 | with two rows holding `SIDS`, hovering `SIDS` in the second row grows the first row's rectangle |
| Hover.HoverTargetAsWritten | index.js:262 | `d3.select('.node-' + key + ' rect')`: the segment with the key in the first row holding it, and nothing when no row holds it |
| Hover.HoverTarget | index.js:258-264 | the corrected target is the hovered row's own segment with the hovered key |
| Hover.TooltipAnchoredAtCentre | index.js:284-294 | the numbers written to the tooltip's `left` and `top` are the group's x plus half the rectangle's width less `tooltipWidth / 2` (60), and the group's y, in inner-group coordinates |
| Hover.TooltipAt | index.js:284-289 | the tooltip position: `getCoords` at the interval's centre less half the tooltip width, with `Y = 0` |
| Hover.MouseOver | index.js:271-295 | what hovering shows, corrected: the hovered row's own segment grown evenly, the tooltip at `TooltipAt`, and the text `key: value` |
| Hover.MouseOut | index.js:297-305 | `mouseOut` puts the rectangle back at x and y 0, width `x1 - x0`, height `rectHeight` |
| Hover.MouseOverShowsHoveredSegment | index.js:271-308 | hovering grows the hovered segment evenly, gives the tooltip the numbers of `TooltipAnchoredAtCentre`, and labels it `key: value`; `mouseOut` restores the resting rectangle |

## Left out

- The SVG document, the selections, the `.join` enter/update/exit machinery, the
  attribute strings, the styling and the fonts (index.js:17-38, 84-250) are left
  out. The model hands the renderer the numbers those attributes carry.
- Transitions and durations are left out. The model describes each end state.
- Removing nodes when a key disappears (the `exit` branches) is left out. Keys
  are never removed by `update`.
- `margin` and the outer `translate` are left out. The model works in the inner
  group's coordinates.
- The tooltip's opacity, its HTML and its CSS width are left out.
- The tooltip's frame is not related to the chart's. Its `left` and `top` are
  CSS pixels of an absolutely positioned `div` in the container
  (index.js:33-38, 293-294), while the numbers come from the inner group,
  which is translated by `margin` (index.js:24-26). The model states the
  numbers only; it does not claim the tooltip appears level with or centred
  over the rectangle on screen.
- Event wiring is left out. This includes the `mouseover` and `mouseout`
  handlers, which are re-attached on every pass from the join's update callback
  (index.js:131, 188). It also includes `preventDefault` and the click
  callback's payload apart from the row it parses.
- Aliasing of the host's `data` is not modelled. The chart keeps the caller's
  row objects and writes onto them in place: `y` and `row` (index.js:53-54),
  `accumOverlap` (index.js:68), and the merged segment object (index.js:320).
  The model copies `data` into the chart's own `rows`, so the caller's copy
  does not see these writes.
- JavaScript numbers are modelled as `real`. Rounding and NaN are not modelled.
- Object key order is modelled as an explicit sequence. JavaScript's rule of
  listing integer-like keys first is not modelled.
- `hasOwnProperty` and prototype properties are not modelled. Every entry of a
  row is an own property.
- Chart.StackedBarChart.Update: a patch whose key the row does not hold is
  refused with `KeyNotFound`. The original instead adds a segment holding only
  the patch's fields, which has no `y` and so gets NaN geometry. A patch whose
  row does not exist is refused with `RowNotFound`; the original throws.
- Patches.Patch: a patch carries only `key`, `row`, `value`, `overlap` and
  `color`. A patch carrying `y` or `accumOverlap` is not modelled: `accumOverlap`
  is recomputed anyway, and `y` is only ever set by `updateChart`.
- NodeIds.ToNumber: only the strings a node id can hold are read, meaning the
  empty string and strings of decimal digits. Signs, whitespace, decimals and
  exponents in `+s` give `None` here.
- `findRowValueByKey` is not called from the chart (its only call is commented
  out at index.js:318). It is modelled on its own.

## Findings

| source | as written | input that shows it | evidently intended | confidence | as-written member | corrected member |
|---|---|---|---|---|---|---|
| index.js:277-280 | the hovered rectangle moves 5 px left and up, is 10 px taller, but only 5 px wider | any hovered segment: its right edge does not move, and its centre shifts 2.5 px left | width `w + 2 * growPx`, as the height is, so the rectangle grows evenly about its centre | not executed | Hover.HoverAsWrittenKeepsRightEdge | Hover.HoverGrowsEvenly |
| index.js:262 | `d3.select('.node-' + key + ' rect')` takes the first group in the document with that key's class | two rows that both hold key `SIDS`: hovering `SIDS` in the second row grows the first row's rectangle | the rectangle of the hovered row's own segment | not executed | Hover.HoverTargetAsWrittenMissesSecondRow | Hover.MouseOverShowsHoveredSegment |
