/** The arithmetic of `updateRects` and `getCoords` in index.js: the sums of
    one row, the running overlap, the linear x scale, the stacked intervals
    and the screen geometry handed to the renderer. */
module Layout {
  import opened Segments

  /** A label narrower than this is hidden. */
  const LABEL_MIN_WIDTH: real := 80.0
  /** Vertical step, per position in the row, of a segment that overlaps. */
  const OVERLAP_STEP: real := 6.0
  /** Offset of the value label's text below its group. */
  const VALUE_TEXT_DROP: real := 10.0

  // ---------------------------------------------------------------------------
  // Sums over a row, in key order (the `for ... in` loop)
  // ---------------------------------------------------------------------------

  /** Σ (value - overlap): the `totalValue` of the layout loop. */
  function TotalValue(row: Row): real
  {
    if row == [] then 0.0 else TotalValue(row[..|row| - 1]) + Net(row[|row| - 1].seg)
  }

  /** Σ overlap: the `totalOverlap` of the layout loop. */
  function TotalOverlap(row: Row): real
  {
    if row == [] then 0.0 else TotalOverlap(row[..|row| - 1]) + OverlapOf(row[|row| - 1].seg)
  }

  /** Σ value: where the stack of full values ends, before scaling. */
  function SumValues(row: Row): real
  {
    if row == [] then 0.0 else SumValues(row[..|row| - 1]) + row[|row| - 1].seg.value
  }

  /** The horizontal space of a row is its full values less its overlaps. */
  lemma {:induction false} TotalValueSplits(row: Row)
    ensures TotalValue(row) == SumValues(row) - TotalOverlap(row)
  {
    if row != [] {
      TotalValueSplits(row[..|row| - 1]);
    }
  }

  /** The sums read nothing but `value` and `overlap`. */
  lemma {:induction false} SumsReadOnlyAmounts(a: Row, b: Row)
    requires SameAmounts(a, b)
    ensures TotalValue(a) == TotalValue(b)
    ensures TotalOverlap(a) == TotalOverlap(b)
    ensures SumValues(a) == SumValues(b)
  {
    if a != [] {
      var n := |a| - 1;
      assert SameAmounts(a[..n], b[..n]);
      SumsReadOnlyAmounts(a[..n], b[..n]);
      assert OverlapOf(a[n].seg) == OverlapOf(b[n].seg);
    }
  }

  /** With no negative overlap, the running overlap never decreases. */
  lemma {:induction false} TotalOverlapGrows(row: Row, i: nat, j: nat)
    requires i <= j <= |row|
    requires forall k | 0 <= k < |row| :: OverlapOf(row[k].seg) >= 0.0
    ensures TotalOverlap(row[..i]) <= TotalOverlap(row[..j])
  {
    if i < j {
      TotalOverlapGrows(row, i, j - 1);
      assert row[..j][..j - 1] == row[..j - 1];
    }
  }

  // ---------------------------------------------------------------------------
  // accumOverlap
  // ---------------------------------------------------------------------------

  /** The row after the layout loop has written `accumOverlap` onto every
      segment: the overlap summed over the segment and all before it. */
  function Accumulated(row: Row): (r: Row)
    ensures SameKeys(r, row) && SameAmounts(r, row)
  {
    seq(|row|, i requires 0 <= i < |row| =>
      Entry(row[i].key, row[i].seg.(accumOverlap := TotalOverlap(row[..i + 1]))))
  }

  /** A row whose `accumOverlap` fields hold what the layout loop writes. */
  predicate Fresh(row: Row)
  {
    forall i | 0 <= i < |row| :: row[i].seg.accumOverlap == TotalOverlap(row[..i + 1])
  }

  /** The loop's output is fresh. */
  lemma {:induction false} AccumulatedIsFresh(row: Row)
    ensures Fresh(Accumulated(row))
  {
    var a := Accumulated(row);
    forall i | 0 <= i < |row|
      ensures a[i].seg.accumOverlap == TotalOverlap(a[..i + 1])
    {
      assert SameAmounts(a[..i + 1], row[..i + 1]);
      SumsReadOnlyAmounts(a[..i + 1], row[..i + 1]);
    }
  }

  /** A row is fresh exactly when re-running the loop leaves it as it is. */
  lemma {:induction false} FreshIsFixedPoint(row: Row)
    ensures Fresh(row) <==> Accumulated(row) == row
  {
  }

  /** The last segment's `accumOverlap` is the row's `totalOverlap`, and with
      no negative overlap the values never decrease along the row. */
  lemma {:induction false} AccumOverlapRuns(row: Row, i: nat, j: nat)
    requires i <= j < |row|
    requires forall k | 0 <= k < |row| :: OverlapOf(row[k].seg) >= 0.0
    ensures Accumulated(row)[i].seg.accumOverlap <= Accumulated(row)[j].seg.accumOverlap
    ensures Accumulated(row)[|row| - 1].seg.accumOverlap == TotalOverlap(row)
  {
    TotalOverlapGrows(row, i + 1, j + 1);
    assert row[..|row|] == row;
  }

  /** The layout loop reads no stale `accumOverlap`: running it on its own
      output changes nothing. */
  lemma {:induction false} AccumulatedIdempotent(row: Row)
    ensures Accumulated(Accumulated(row)) == Accumulated(row)
  {
    AccumulatedIsFresh(row);
    FreshIsFixedPoint(Accumulated(row));
  }

  // ---------------------------------------------------------------------------
  // The x scale and the stack
  // ---------------------------------------------------------------------------

  /** `d3.scaleLinear().domain([0, total]).range([0, width])` applied to `v`.
      A collapsed domain (`total == 0`) maps every value to the middle of the
      range, as d3's linear scale does. */
  function XScale(v: real, total: real, width: real): real
  {
    if total == 0.0 then width / 2.0 else width * (v / total)
  }

  lemma {:induction false} XScaleAdds(a: real, b: real, total: real, width: real)
    requires total != 0.0
    ensures XScale(a + b, total, width) == XScale(a, total, width) + XScale(b, total, width)
    ensures XScale(a - b, total, width) == XScale(a, total, width) - XScale(b, total, width)
  {
  }

  /** The end of the domain maps to the end of the range. */
  lemma {:induction false} XScaleFull(total: real, width: real)
    requires total != 0.0
    ensures XScale(total, total, width) == width
  {
  }

  /** One series of `d3.stack` over the single datum: `[x0, x1)`. */
  datatype Interval = Interval(x0: real, x1: real)

  /** `d3.stack().keys(keys)` over the one datum of scaled full values: every
      interval starts where the one before it ends, the first at 0. */
  function Stack(row: Row, total: real, width: real): (r: seq<Interval>)
    ensures |r| == |row|
    ensures r != [] ==> r[0].x0 == 0.0
  {
    if row == [] then []
    else
      var n := |row| - 1;
      var front := Stack(row[..n], total, width);
      var x0 := if front == [] then 0.0 else front[n - 1].x1;
      front + [Interval(x0, x0 + XScale(row[n].seg.value, total, width))]
  }

  /** Interval `i` is as wide as the scaled value of segment `i`, and starts
      where interval `i - 1` ends. */
  lemma {:induction false} StackAt(row: Row, total: real, width: real, i: nat)
    requires i < |row|
    ensures var s := Stack(row, total, width);
      && s[i].x1 - s[i].x0 == XScale(row[i].seg.value, total, width)
      && (i > 0 ==> s[i].x0 == s[i - 1].x1)
  {
    var n := |row| - 1;
    if i < n {
      StackAt(row[..n], total, width, i);
    }
  }

  /** The stack is the prefix sum of the scaled values: interval `i` starts at
      the scaled sum of the values before it. */
  lemma {:induction false} StackIsPrefixSum(row: Row, total: real, width: real, i: nat)
    requires total != 0.0 && i < |row|
    ensures Stack(row, total, width)[i].x0 == XScale(SumValues(row[..i]), total, width)
    ensures Stack(row, total, width)[i].x1 == XScale(SumValues(row[..i + 1]), total, width)
  {
    StackAt(row, total, width, i);
    if i > 0 {
      StackIsPrefixSum(row, total, width, i - 1);
    }
    assert row[..i + 1][..i] == row[..i];
    XScaleAdds(SumValues(row[..i]), row[i].seg.value, total, width);
  }

  // ---------------------------------------------------------------------------
  // Screen coordinates and labels
  // ---------------------------------------------------------------------------

  datatype Point = Point(x: real, y: real)

  /** `getCoords(X, Y, d, i)`: shift left by the scaled running overlap; a
      segment with a positive overlap drops 6 px per position in the row. */
  function Coords(x: real, y: real, s: Segment, i: nat, total: real, width: real): Point
  {
    Point(x - XScale(s.accumOverlap, total, width),
          y + s.y + (if OverlapOf(s) > 0.0 then i as real * OVERLAP_STEP else 0.0))
  }

  /** The visibility rule of both kinds of label: `width < 80 ? 'hidden' : 'visible'`. */
  predicate LabelVisible(w: real)
  {
    !(w < LABEL_MIN_WIDTH)
  }

  /** What every pass of the three joins sets for one segment of the row: the
      rectangle's group translation and size, the key label's centre (inside
      the rectangle) and the value label's position (below it), each label's
      visibility, and the value the value label shows. The fill is not here:
      only the enter branch paints it. */
  datatype Placed = Placed(
    key: string,
    x: real,
    y: real,
    width: real,
    height: real,
    keyLabel: Point,
    valueLabel: Point,
    keyLabelVisible: bool,
    valueLabelVisible: bool,
    valueText: real)

  function Place(row: Row, nodes: seq<Interval>, i: nat, total: real, width: real, rectHeight: real): Placed
    requires |nodes| == |row| && i < |row|
  {
    var s := row[i].seg;
    var w := nodes[i].x1 - nodes[i].x0;
    var rect := Coords(nodes[i].x0, 0.0, s, i, total, width);
    var below := Coords(nodes[i].x0 + w / 2.0, rectHeight, s, i, total, width);
    Placed(row[i].key, rect.x, rect.y, w, rectHeight,
           Point(rect.x + w / 2.0, rect.y + rectHeight / 2.0),
           Point(below.x, below.y + VALUE_TEXT_DROP),
           LabelVisible(w), LabelVisible(w), s.value)
  }

  /** The geometry of a whole row, in key order, as the three joins of
      `updateRects` hand it to the renderer, on enter and on update alike. */
  function Render(row: Row, total: real, width: real, rectHeight: real): (r: seq<Placed>)
    ensures |r| == |row|
    ensures forall i | 0 <= i < |r| :: r[i].key == row[i].key && r[i].valueText == row[i].seg.value
  {
    var nodes := Stack(row, total, width);
    seq(|row|, i requires 0 <= i < |row| => Place(row, nodes, i, total, width, rectHeight))
  }

  /** The arithmetic behind the edge lemmas, kept apart from the layout so
      that the solver sees only these few reals: shifting the scaled full
      sum `sv` left by the scaled overlap `acc` lands on the scaled net sum. */
  lemma {:induction false} EdgeChain(x: real, x0: real, acc: real, sv: real, net: real, total: real, width: real)
    requires total != 0.0
    requires x == x0 - XScale(acc, total, width) && x0 == XScale(sv, total, width) && net == sv - acc
    ensures x == XScale(net, total, width)
  {
    XScaleAdds(sv, acc, total, width);
  }

  /** `getCoords` on the rectangle: segment `i` is drawn at the start of its
      stacked interval, shifted left by its scaled `accumOverlap`. */
  lemma {:induction false} RenderX(row: Row, total: real, width: real, rectHeight: real, i: nat)
    requires i < |row|
    ensures Render(row, total, width, rectHeight)[i].x
         == Stack(row, total, width)[i].x0 - XScale(row[i].seg.accumOverlap, total, width)
    ensures Render(row, total, width, rectHeight)[i].width
         == Stack(row, total, width)[i].x1 - Stack(row, total, width)[i].x0
  {
  }

  /** The running overlap up to segment `i` is the one before it plus its own. */
  lemma {:induction false} TotalOverlapStep(row: Row, i: nat)
    requires i < |row|
    ensures TotalOverlap(row[..i + 1]) == TotalOverlap(row[..i]) + OverlapOf(row[i].seg)
    ensures TotalValue(row[..i + 1]) == TotalValue(row[..i]) + Net(row[i].seg)
  {
    assert row[..i + 1][..i] == row[..i];
  }

  /** Where segment `i` of a freshly laid-out row ends: at the scaled net
      space of the segments up to and including it. */
  lemma {:induction false} RenderRightEdge(row: Row, total: real, width: real, rectHeight: real, i: nat)
    requires Fresh(row) && total != 0.0 && i < |row|
    ensures Render(row, total, width, rectHeight)[i].x + Render(row, total, width, rectHeight)[i].width
         == XScale(TotalValue(row[..i + 1]), total, width)
  {
    RightEdgeAt(row, total, width, rectHeight, i, row[i].seg.accumOverlap);
  }

  lemma {:induction false} RightEdgeAt(row: Row, total: real, width: real, rectHeight: real, i: nat, acc: real)
    requires total != 0.0 && i < |row|
    requires acc == row[i].seg.accumOverlap && acc == TotalOverlap(row[..i + 1])
    ensures Render(row, total, width, rectHeight)[i].x + Render(row, total, width, rectHeight)[i].width
         == XScale(TotalValue(row[..i + 1]), total, width)
  {
    var node := Stack(row, total, width)[i];
    RenderX(row, total, width, rectHeight, i);
    StackIsPrefixSum(row, total, width, i);
    TotalValueSplits(row[..i + 1]);
    EdgeChain(node.x1 - XScale(acc, total, width), node.x1, acc, SumValues(row[..i + 1]),
              TotalValue(row[..i + 1]), total, width);
  }

  /** Where segment `i` of a freshly laid-out row starts: at the scaled net
      space of the segments before it, less its own overlap. */
  lemma {:induction false} RenderLeftEdge(row: Row, total: real, width: real, rectHeight: real, i: nat)
    requires Fresh(row) && total != 0.0 && i < |row|
    ensures Render(row, total, width, rectHeight)[i].x
         == XScale(TotalValue(row[..i]) - OverlapOf(row[i].seg), total, width)
  {
    LeftEdgeAt(row, total, width, rectHeight, i, row[i].seg.accumOverlap);
  }

  lemma {:induction false} LeftEdgeAt(row: Row, total: real, width: real, rectHeight: real, i: nat, acc: real)
    requires total != 0.0 && i < |row|
    requires acc == row[i].seg.accumOverlap && acc == TotalOverlap(row[..i + 1])
    ensures Render(row, total, width, rectHeight)[i].x
         == XScale(TotalValue(row[..i]) - OverlapOf(row[i].seg), total, width)
  {
    var node := Stack(row, total, width)[i];
    var o := OverlapOf(row[i].seg);
    RenderX(row, total, width, rectHeight, i);
    StackIsPrefixSum(row, total, width, i);
    TotalValueSplits(row[..i]);
    TotalOverlapStep(row, i);
    EdgeChain(node.x0 - XScale(acc, total, width), node.x0, acc, SumValues(row[..i]),
              TotalValue(row[..i]) - o, total, width);
  }

  /** The last rectangle's right edge lands exactly on `width`. */
  lemma {:induction false} RenderEndsAtWidth(row: Row, width: real, rectHeight: real)
    requires Fresh(row) && TotalValue(row) != 0.0 && row != []
    ensures var p := Render(row, TotalValue(row), width, rectHeight)[|row| - 1];
      p.x + p.width == width
  {
    RenderRightEdge(row, TotalValue(row), width, rectHeight, |row| - 1);
    assert row[..|row|] == row;
    XScaleFull(TotalValue(row), width);
  }

  /** The arithmetic behind the overlap shift, kept apart from the layout so
      that the solver sees only these few reals. */
  lemma {:induction false} ShiftChain(x1: real, x0: real, w0: real, s1: real, s0: real, e0: real,
                                      a1: real, a0: real, o: real, total: real, width: real)
    requires total != 0.0
    requires x1 == s1 - XScale(a1, total, width) && x0 == s0 - XScale(a0, total, width)
    requires w0 == e0 - s0 && s1 == e0 && a1 == a0 + o
    ensures x1 == x0 + w0 - XScale(o, total, width)
  {
    XScaleAdds(a0, o, total, width);
  }

  /** The first segment starts its own scaled overlap left of 0. */
  lemma {:induction false} RenderFirstShift(row: Row, total: real, width: real, rectHeight: real)
    requires Fresh(row) && row != []
    ensures Render(row, total, width, rectHeight)[0].x == 0.0 - XScale(OverlapOf(row[0].seg), total, width)
  {
    assert row[0].seg.accumOverlap == OverlapOf(row[0].seg) by {
      var one := row[..1];
      assert one[..0] == [] && one[0] == row[0];
      assert TotalOverlap(one) == TotalOverlap(one[..0]) + OverlapOf(one[0].seg);
    }
  }

  /** Each later segment starts its own scaled overlap to the left of where
      the one before it ends. */
  lemma {:induction false} RenderOverlapShift(row: Row, total: real, width: real, rectHeight: real, i: nat)
    requires Fresh(row) && total != 0.0 && 0 < i < |row|
    ensures var r := Render(row, total, width, rectHeight);
      r[i].x == r[i - 1].x + r[i - 1].width - XScale(OverlapOf(row[i].seg), total, width)
  {
    var r := Render(row, total, width, rectHeight);
    var s := Stack(row, total, width);
    var o := OverlapOf(row[i].seg);
    var a0 := row[i - 1].seg.accumOverlap;
    StackAt(row, total, width, i);
    assert row[i].seg.accumOverlap == a0 + o by {
      assert row[..i + 1][..i] == row[..i];
    }
    ShiftChain(r[i].x, r[i - 1].x, r[i - 1].width, s[i].x0, s[i - 1].x0, s[i - 1].x1,
               row[i].seg.accumOverlap, a0, o, total, width);
  }

  /** Without overlaps the rectangles tile `[0, width]`: the first starts at 0,
      each starts where the one before ends, the last ends at `width`. */
  lemma {:induction false} RenderTilesWithoutOverlap(row: Row, width: real, rectHeight: real)
    requires Fresh(row) && TotalValue(row) != 0.0 && row != []
    requires forall k | 0 <= k < |row| :: OverlapOf(row[k].seg) == 0.0
    ensures var r := Render(row, TotalValue(row), width, rectHeight);
      && r[0].x == 0.0
      && (forall i | 0 < i < |r| :: r[i].x == r[i - 1].x + r[i - 1].width)
      && r[|r| - 1].x + r[|r| - 1].width == width
  {
    var t := TotalValue(row);
    var r := Render(row, t, width, rectHeight);
    assert XScale(0.0, t, width) == 0.0;
    RenderFirstShift(row, t, width, rectHeight);
    forall i | 0 < i < |r|
      ensures r[i].x == r[i - 1].x + r[i - 1].width
    {
      RenderOverlapShift(row, t, width, rectHeight, i);
      assert OverlapOf(row[i].seg) == 0.0;
    }
    RenderEndsAtWidth(row, width, rectHeight);
  }

  /** The vertical placement and the labels of segment `i`: the rectangle sits
      at the segment's `y`, dropped by 6 px per position when it overlaps; the
      key label is centred in the rectangle, the value label centred under it;
      both labels show exactly when the rectangle is at least 80 px wide. */
  lemma {:induction false} RenderPlacement(row: Row, total: real, width: real, rectHeight: real, i: nat)
    requires i < |row|
    ensures var p := Render(row, total, width, rectHeight)[i];
      && p.y == row[i].seg.y + (if OverlapOf(row[i].seg) > 0.0 then 6.0 * i as real else 0.0)
      && p.width == XScale(row[i].seg.value, total, width)
      && p.height == rectHeight
      && p.keyLabel == Point(p.x + p.width / 2.0, p.y + rectHeight / 2.0)
      && p.valueLabel == Point(p.x + p.width / 2.0, p.y + rectHeight + 10.0)
      && (p.keyLabelVisible <==> p.width >= 80.0)
      && (p.valueLabelVisible <==> p.width >= 80.0)
  {
    StackAt(row, total, width, i);
  }

  /** Two segments, 60 and 40, on an 800 px canvas: the first spans [0, 480),
      the second [480, 800). */
  lemma {:induction false} ScenarioPlain(a: Segment, b: Segment)
    requires a.value == 60.0 && a.overlap == None && a.accumOverlap == 0.0
    requires b.value == 40.0 && b.overlap == None && b.accumOverlap == 0.0
    ensures TotalValue([Entry("A", a), Entry("B", b)]) == 100.0
    ensures var row := [Entry("A", a), Entry("B", b)];
      var r := Render(row, TotalValue(row), 800.0, 20.0);
      && r[0].x == 0.0 && r[0].width == 480.0
      && r[1].x == 480.0 && r[1].width == 320.0
  {
    var row := [Entry("A", a), Entry("B", b)];
    assert row[..1] == [Entry("A", a)];
    assert row[..1][..0] == [];
    assert TotalValue(row[..1]) == Net(a);
    StackAt(row, TotalValue(row), 800.0, 0);
    StackAt(row, TotalValue(row), 800.0, 1);
  }

  /** 50 and 50 with an overlap of 20 on the second: the row is 80 wide, the
      second rectangle is drawn 200 px (the scaled overlap) left of where the
      first ends and 6 px lower. */
  lemma {:induction false} ScenarioOverlap(a: Segment, b: Segment)
    requires a.value == 50.0 && a.overlap == None && a.accumOverlap == 0.0
    requires b.value == 50.0 && b.overlap == Some(20.0) && b.accumOverlap == 20.0
    requires a.y == b.y
    ensures TotalValue([Entry("A", a), Entry("B", b)]) == 80.0
    ensures var row := [Entry("A", a), Entry("B", b)];
      var r := Render(row, TotalValue(row), 800.0, 20.0);
      && r[0].x == 0.0 && r[0].width == 500.0
      && r[1].x == 300.0 && r[1].width == 500.0
      && r[1].y == r[0].y + 6.0
      && r[1].x + r[1].width == 800.0
  {
    var row := [Entry("A", a), Entry("B", b)];
    assert row[..1] == [Entry("A", a)];
    assert row[..1][..0] == [];
    assert TotalValue(row[..1]) == Net(a);
    StackAt(row, TotalValue(row), 800.0, 0);
    StackAt(row, TotalValue(row), 800.0, 1);
  }
}
