/** The public `update(dd)` of the chart as a pure function on the data: the
    patch is spread over the segment it names, and that row is laid out again. */
module Patches {
  import opened Segments
  import opened Layout

  /** The object passed to `update`: `key` and `row` name the segment, the
      other fields are present only when the caller sends them. */
  datatype Patch = Patch(
    key: string,
    row: int,
    value: Option<real>,
    overlap: Option<real>,
    color: Option<string>)

  /** `{...old, ...dd}`: every field the patch carries wins, the rest of the
      segment object stays. */
  function Merge(s: Segment, p: Patch): Segment
  {
    Segment(
      if p.value.Some? then p.value.value else s.value,
      if p.overlap.Some? then p.overlap else s.overlap,
      if p.color.Some? then p.color.value else s.color,
      Some(p.key),
      s.y,
      p.row,
      s.accumOverlap)
  }

  // ---------------------------------------------------------------------------
  // Object spread, stated on property maps
  // ---------------------------------------------------------------------------

  /** The property names a segment object can carry. */
  datatype Field = ValueField | OverlapField | ColorField | KeyField | YField | RowField | AccumOverlapField

  /** The value of one property of a segment object. */
  datatype FieldValue = Num(n: real) | Text(t: string) | Whole(w: int)

  /** Whether a segment object carries property `f`. */
  predicate Carries(s: Segment, f: Field)
  {
    match f
    case OverlapField => s.overlap.Some?
    case KeyField => s.key.Some?
    case _ => true
  }

  /** The value of property `f` of a segment object that carries it. */
  function Property(s: Segment, f: Field): FieldValue
    requires Carries(s, f)
  {
    match f
    case ValueField => Num(s.value)
    case OverlapField => Num(s.overlap.value)
    case ColorField => Text(s.color)
    case KeyField => Text(s.key.value)
    case YField => Num(s.y)
    case RowField => Whole(s.row)
    case AccumOverlapField => Num(s.accumOverlap)
  }

  /** The own properties of a segment object, by name. */
  function Fields(s: Segment): map<Field, FieldValue>
  {
    map f: Field | Carries(s, f) :: Property(s, f)
  }

  /** Whether a patch object carries property `f`. */
  predicate Sends(p: Patch, f: Field)
  {
    match f
    case KeyField => true
    case RowField => true
    case ValueField => p.value.Some?
    case OverlapField => p.overlap.Some?
    case ColorField => p.color.Some?
    case _ => false
  }

  /** The value of property `f` of a patch object that carries it. */
  function Sent(p: Patch, f: Field): FieldValue
    requires Sends(p, f)
  {
    match f
    case KeyField => Text(p.key)
    case RowField => Whole(p.row)
    case ValueField => Num(p.value.value)
    case OverlapField => Num(p.overlap.value)
    case ColorField => Text(p.color.value)
  }

  /** The own properties of a patch object, by name. */
  function PatchFields(p: Patch): map<Field, FieldValue>
  {
    map f: Field | Sends(p, f) :: Sent(p, f)
  }

  /** `Merge` is the object spread: the merged segment's properties are the old
      ones overridden by the patch's. */
  lemma {:induction false} MergeIsSpread(s: Segment, p: Patch)
    ensures Fields(Merge(s, p)) == Fields(s) + PatchFields(p)
  {
  }

  // ---------------------------------------------------------------------------
  // The patched data
  // ---------------------------------------------------------------------------

  /** The patch names an existing row and a key that row holds. */
  predicate Patchable(rows: seq<Row>, p: Patch)
  {
    0 <= p.row < |rows| && HasKey(rows[p.row], p.key)
  }

  /** `data[row][dd.key] = {...data[row][dd.key], ...dd}` */
  function PatchRow(row: Row, p: Patch): (r: Row)
    requires HasKey(row, p.key)
    ensures SameKeys(row, r)
  {
    var k := IndexOf(row, p.key);
    row[k := Entry(p.key, Merge(row[k].seg, p))]
  }

  /** The data after `update(dd)`: the named segment merged, then its row laid
      out again by `updateRects`. */
  function Patched(rows: seq<Row>, p: Patch): (r: seq<Row>)
    requires Patchable(rows, p)
    ensures |r| == |rows|
  {
    rows[p.row := Accumulated(PatchRow(rows[p.row], p))]
  }

  /** Replacing entry `k` changes the running overlap of every prefix that
      contains it by the difference of the two overlaps, and no other. */
  lemma {:induction false} TotalOverlapReplaced(row: Row, k: nat, e: Entry, m: nat)
    requires k < |row| && m <= |row|
    ensures TotalOverlap(row[k := e][..m])
         == TotalOverlap(row[..m]) + (if k < m then OverlapOf(e.seg) - OverlapOf(row[k].seg) else 0.0)
  {
    var row' := row[k := e];
    if m > 0 {
      TotalOverlapReplaced(row, k, e, m - 1);
      assert row'[..m][..m - 1] == row'[..m - 1];
      assert row[..m][..m - 1] == row[..m - 1];
    } else {
      assert row'[..0] == [] && row[..0] == [];
    }
  }

  /** What `update(dd)` changes: only the named row; in it, the segments
      before the named one stay as they were, the named one is merged, and it
      and every later one move their `accumOverlap` by how much the patch
      changed the overlap. */
  lemma {:induction false} PatchFrame(rows: seq<Row>, p: Patch)
    requires Patchable(rows, p) && Fresh(rows[p.row])
    ensures forall r | 0 <= r < |rows| && r != p.row :: Patched(rows, p)[r] == rows[r]
    ensures var before := rows[p.row];
      var after := Patched(rows, p)[p.row];
      var k := IndexOf(before, p.key);
      var d := OverlapOf(Merge(before[k].seg, p)) - OverlapOf(before[k].seg);
      && SameKeys(before, after)
      && (forall j | 0 <= j < k :: after[j] == before[j])
      && after[k].seg == Merge(before[k].seg, p).(accumOverlap := before[k].seg.accumOverlap + d)
      && (forall j | k < j < |before| :: after[j].seg == before[j].seg.(accumOverlap := before[j].seg.accumOverlap + d))
  {
    var before := rows[p.row];
    var k := IndexOf(before, p.key);
    var e := Entry(p.key, Merge(before[k].seg, p));
    var patched := PatchRow(before, p);
    assert patched == before[k := e];
    var after := Accumulated(patched);
    var d := OverlapOf(e.seg) - OverlapOf(before[k].seg);
    forall j | 0 <= j < k
      ensures after[j] == before[j]
    {
      AccumulatedReplacedAt(before, k, e, j);
    }
    AccumulatedReplacedAt(before, k, e, k);
    forall j | k < j < |before|
      ensures after[j].seg == before[j].seg.(accumOverlap := before[j].seg.accumOverlap + d)
    {
      AccumulatedReplacedAt(before, k, e, j);
    }
  }

  /** Segment `j` of a fresh row laid out again after entry `k` was replaced. */
  lemma {:induction false} AccumulatedReplacedAt(row: Row, k: nat, e: Entry, j: nat)
    requires Fresh(row) && k < |row| && j < |row|
    ensures var d := if k <= j then OverlapOf(e.seg) - OverlapOf(row[k].seg) else 0.0;
      var prior := if j == k then e else row[j];
      Accumulated(row[k := e])[j] == Entry(prior.key, prior.seg.(accumOverlap := row[j].seg.accumOverlap + d))
  {
    TotalOverlapReplaced(row, k, e, j + 1);
  }

  /** Sending the same patch twice leaves the data as sending it once. */
  lemma {:induction false} PatchedTwice(rows: seq<Row>, p: Patch)
    requires Patchable(rows, p)
    ensures Patchable(Patched(rows, p), p)
    ensures Patched(Patched(rows, p), p) == Patched(rows, p)
  {
    var row := rows[p.row];
    var a := PatchRow(row, p);
    var b := Accumulated(a);
    assert SameKeys(row, b);
    IndexOfSameKeys(row, b, p.key);
    var k := IndexOf(row, p.key);
    assert PatchRow(b, p) == b by {
      assert b[k].seg == a[k].seg.(accumOverlap := b[k].seg.accumOverlap);
      assert Merge(b[k].seg, p) == b[k].seg;
    }
    AccumulatedIdempotent(a);
  }
}
