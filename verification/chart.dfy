/** The chart object returned by `StackedBarChart(...)`: it owns the rows of
    segment objects, writes the layout fields onto them, and hands the
    geometry of every row to the renderer. */
module Chart {
  import opened Segments
  import opened Layout
  import opened Patches

  // ---------------------------------------------------------------------------
  // The y scale
  // ---------------------------------------------------------------------------

  /** `padding(0.1)` sets both the inner and the outer padding of the band. */
  const BAND_PADDING: real := 0.1

  /** The distance between the tops of two neighbouring bands of
      `d3.scaleBand().domain(d3.range(0, n)).range([0, height]).padding(0.1)`. */
  function BandStep(n: nat, height: real): real
  {
    var slots := n as real - BAND_PADDING + 2.0 * BAND_PADDING;
    height / (if slots < 1.0 then 1.0 else slots)
  }

  /** `yScale(row)`: the top of the band of `row`, the leftover outer space
      split evenly above and below. */
  function YScale(row: nat, n: nat, height: real): real
  {
    var step := BandStep(n, height);
    var start := (height - step * (n as real - BAND_PADDING)) * 0.5;
    start + step * row as real
  }

  /** Neighbouring bands are one step apart. */
  lemma {:induction false} BandsEvenlySpaced(n: nat, height: real, row: nat)
    requires row + 1 < n
    ensures YScale(row + 1, n, height) == YScale(row, n, height) + BandStep(n, height)
  {
  }

  /** The first band starts one padding step below 0, and the last band,
      `(1 - padding) * step` tall, ends one padding step above `height`. */
  lemma {:induction false} BandsFillRange(n: nat, height: real)
    requires 0 < n
    ensures YScale(0, n, height) == BAND_PADDING * BandStep(n, height)
    ensures YScale(n - 1, n, height) + (1.0 - BAND_PADDING) * BandStep(n, height)
         == height - BAND_PADDING * BandStep(n, height)
  {
  }

  // ---------------------------------------------------------------------------
  // What `updateChart` leaves on the rows
  // ---------------------------------------------------------------------------

  /** The inner loop of `updateChart`: every segment of the row learns its
      band's `y` and its `row` index. */
  function Stamp(row: Row, r: nat, y: real): (s: Row)
    ensures SameKeys(row, s) && SameAmounts(row, s)
  {
    seq(|row|, i requires 0 <= i < |row| => Entry(row[i].key, row[i].seg.(y := y, row := r)))
  }

  /** A row as `updateChart` leaves it: stamped, then laid out. */
  function Prepared(row: Row, r: nat, n: nat, height: real): Row
  {
    Accumulated(Stamp(row, r, YScale(r, n, height)))
  }

  /** A row is in its laid-out state: its keys are distinct, its running
      overlaps are current, and each segment knows its row and band. */
  predicate Laid(row: Row, r: nat, y: real)
  {
    && KeysUnique(row)
    && Fresh(row)
    && forall i | 0 <= i < |row| :: row[i].seg.row == r && row[i].seg.y == y
  }

  lemma {:induction false} PreparedIsLaid(row: Row, r: nat, n: nat, height: real)
    requires KeysUnique(row)
    ensures Laid(Prepared(row, r, n, height), r, YScale(r, n, height))
  {
    var s := Stamp(row, r, YScale(r, n, height));
    AccumulatedIsFresh(s);
  }

  /** A patch keeps a laid-out row laid out. */
  lemma {:induction false} PatchKeepsLaid(rows: seq<Row>, p: Patch, y: real)
    requires Patchable(rows, p) && Laid(rows[p.row], p.row, y)
    ensures Laid(Patched(rows, p)[p.row], p.row, y)
  {
    var patched := PatchRow(rows[p.row], p);
    AccumulatedIsFresh(patched);
  }

  /** The inner `forEach` of `updateChart`, over the keys of row `r`. */
  method StampRow(row: Row, r: nat, y: real) returns (d: Row)
    ensures d == Stamp(row, r, y)
  {
    d := row;
    var i := 0;
    while i < |d|
      invariant 0 <= i <= |d| && |d| == |row|
      invariant forall j | 0 <= j < i :: d[j] == Stamp(row, r, y)[j]
      invariant forall j | i <= j < |d| :: d[j] == row[j]
    {
      d := d[i := Entry(d[i].key, d[i].seg.(y := y, row := r))];
      i := i + 1;
    }
  }

  /** The `for (const key in data)` loop of `updateRects`: it keeps the
      running `totalValue` and `totalOverlap` and writes the latter onto each
      segment as `accumOverlap`. */
  method AccumulateOverlaps(row: Row) returns (data: Row, totalValue: real, totalOverlap: real)
    ensures data == Accumulated(row)
    ensures totalValue == TotalValue(row) == TotalValue(data)
    ensures totalOverlap == TotalOverlap(row) == TotalOverlap(data)
  {
    data := row;
    totalValue := 0.0;
    totalOverlap := 0.0;
    var i := 0;
    while i < |data|
      invariant 0 <= i <= |data| && |data| == |row|
      invariant forall j | 0 <= j < i :: data[j] == Accumulated(row)[j]
      invariant forall j | i <= j < |data| :: data[j] == row[j]
      invariant totalValue == TotalValue(row[..i])
      invariant totalOverlap == TotalOverlap(row[..i])
    {
      var e := data[i];
      TotalOverlapStep(row, i);
      totalValue := totalValue + (e.seg.value - OverlapOf(e.seg));
      totalOverlap := totalOverlap + OverlapOf(e.seg);
      data := data[i := Entry(e.key, e.seg.(accumOverlap := totalOverlap))];
      i := i + 1;
    }
    assert data == Accumulated(row);
    assert row[..|row|] == row;
    SumsReadOnlyAmounts(row, data);
  }

  /** The `fill` and `stroke` the enter branch of the rectangle join paints
      each rectangle of a row with: its segment's colour. */
  function Colors(row: Row): (c: seq<string>)
    ensures |c| == |row|
    ensures forall i | 0 <= i < |row| :: c[i] == row[i].seg.color
  {
    seq(|row|, i requires 0 <= i < |row| => row[i].seg.color)
  }

  datatype UpdateError = RowNotFound | KeyNotFound

  class StackedBarChart {
    const width: real
    const height: real
    const rectHeight: real

    /** `data`: one row object per bar, mutated in place by the layout. */
    var rows: seq<Row>
    /** The geometry last handed to the renderer, one row at a time. */
    var scene: seq<seq<Placed>>
    /** The colour each drawn rectangle was painted with when its group
        entered; the update branch of the join never repaints it. */
    var fills: seq<seq<string>>

    ghost predicate Valid()
      reads this
    {
      && |scene| == |rows| && |fills| == |rows|
      && forall r | 0 <= r < |rows| ::
           && Laid(rows[r], r, YScale(r, |rows|, height))
           && scene[r] == Render(rows[r], TotalValue(rows[r]), width, rectHeight)
           && |fills[r]| == |rows[r]|
    }

    /** `StackedBarChart({data}, {width, height, rectHeight})` draws every row. */
    constructor (data: seq<Row>, width: real, height: real, rectHeight: real)
      requires forall r | 0 <= r < |data| :: KeysUnique(data[r])
      ensures Valid()
      ensures this.width == width && this.height == height && this.rectHeight == rectHeight
      ensures rows == seq(|data|, r requires 0 <= r < |data| => Prepared(data[r], r, |data|, height))
      ensures forall r | 0 <= r < |rows| :: fills[r] == Colors(rows[r])
    {
      this.width := width;
      this.height := height;
      this.rectHeight := rectHeight;
      rows := data;
      scene := seq(|data|, r => []);
      fills := seq(|data|, r => []);
      new;
      UpdateChart();
    }

    /** `updateChart(data)`: stamp every row with its band and index, then lay
        it out and render it. No row has been drawn yet, so every group enters
        on this pass and every rectangle is painted with its segment's colour. */
    method UpdateChart()
      requires |scene| == |rows| && |fills| == |rows|
      requires forall r | 0 <= r < |scene| :: scene[r] == []
      requires forall r | 0 <= r < |rows| :: KeysUnique(rows[r])
      modifies this
      ensures Valid()
      ensures rows == seq(|old(rows)|, r requires 0 <= r < |old(rows)| => Prepared(old(rows)[r], r, |old(rows)|, height))
      ensures forall r | 0 <= r < |rows| :: fills[r] == Colors(rows[r])
    {
      ghost var orig := rows;
      var n := |rows|;
      var r := 0;
      while r < n
        invariant 0 <= r <= n && |rows| == n && |scene| == n && |fills| == n
        invariant forall j | 0 <= j < r :: fills[j] == Colors(rows[j])
        invariant forall j | 0 <= j < r :: rows[j] == Prepared(orig[j], j, n, height)
        invariant forall j | 0 <= j < r :: scene[j] == Render(rows[j], TotalValue(rows[j]), width, rectHeight)
        invariant forall j | r <= j < n :: rows[j] == orig[j]
        invariant forall j | r <= j < n :: scene[j] == []
      {
        DrawRow(r);
        r := r + 1;
      }
      forall j | 0 <= j < n
        ensures Laid(rows[j], j, YScale(j, n, height))
      {
        PreparedIsLaid(orig[j], j, n, height);
      }
    }

    /** The callback of `data.forEach` in `updateChart` for row `r`: stamp the
        row, lay it out and render it. The row has not been drawn yet, so its
        groups enter and each rectangle is painted with its segment's colour. */
    method DrawRow(r: nat)
      requires r < |rows| && |scene| == |rows| && |fills| == |rows|
      requires scene[r] == []
      modifies this
      ensures rows == old(rows)[r := Prepared(old(rows)[r], r, |rows|, height)]
      ensures scene == old(scene)[r := Render(rows[r], TotalValue(rows[r]), width, rectHeight)]
      ensures fills == old(fills)[r := Colors(rows[r])]
    {
      var d := StampRow(rows[r], r, YScale(r, |rows|, height));
      rows := rows[r := d];
      var _ := UpdateRects(r);
      fills := fills[r := Colors(rows[r])];
    }

    /** `updateRects(data[row], row)`: lay the row out, then stack it, scale
        it to `[0, width]` and hand it to the renderer. */
    method UpdateRects(row: nat) returns (nodes: seq<Placed>)
      requires row < |rows| && |scene| == |rows|
      modifies this
      ensures rows == old(rows)[row := Accumulated(old(rows)[row])]
      ensures nodes == Render(rows[row], TotalValue(rows[row]), width, rectHeight)
      ensures scene == old(scene)[row := nodes]
      ensures fills == old(fills)
    {
      var data, totalValue, _ := AccumulateOverlaps(rows[row]);
      rows := rows[row := data];
      nodes := Render(data, totalValue, width, rectHeight);
      scene := scene[row := nodes];
    }

    /** `update(dd)`: spread the patch over `data[dd.row][dd.key]` and lay that
        row out again. A row that does not exist is refused (the original
        throws); so is a key the row does not hold. The row's groups already
        exist, so the join takes its update branch: geometry and value text
        change, the painted colours do not, even when the patch carries a
        `color`. */
    method Update(p: Patch) returns (res: Result<seq<Placed>, UpdateError>)
      requires Valid()
      modifies this
      ensures Valid()
      ensures res.Success? <==> Patchable(old(rows), p)
      ensures !(0 <= p.row < |old(rows)|) ==> res == Failure(RowNotFound)
      ensures res.Success? ==> && rows == Patched(old(rows), p)
                               && res.value == Render(rows[p.row], TotalValue(rows[p.row]), width, rectHeight)
                               && scene == old(scene)[p.row := res.value]
      ensures res.Failure? ==> rows == old(rows) && scene == old(scene)
      ensures fills == old(fills)
    {
      if p.row < 0 || p.row >= |rows| {
        return Failure(RowNotFound);
      }
      var r := p.row;
      if !HasKey(rows[r], p.key) {
        return Failure(KeyNotFound);
      }
      ghost var y := YScale(r, |rows|, height);
      ghost var before := rows;
      var k := IndexOf(rows[r], p.key);
      rows := rows[r := rows[r][k := Entry(p.key, Merge(rows[r][k].seg, p))]];
      var nodes := UpdateRects(r);
      PatchKeepsLaid(before, p, y);
      res := Success(nodes);
    }
  }
}
