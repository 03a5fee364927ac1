/** The data model of the stacked bar chart in index.js: a row is an ordered
    sequence of keyed segment objects. */
module Segments {

  datatype Option<T> = None | Some(value: T)

  datatype Result<T, E> = Success(value: T) | Failure(error: E)

  /** A segment object as the chart holds it. `value`, `overlap` and `color`
      come from the host; `y`, `row` and `accumOverlap` are written onto it by
      the layout; `key` appears on it only once a patch carrying a key has been
      merged into it. */
  datatype Segment = Segment(
    value: real,
    overlap: Option<real>,
    color: string,
    key: Option<string>,
    y: real,
    row: int,
    accumOverlap: real)

  /** One own property of a row object: its key and the segment under it. */
  datatype Entry = Entry(key: string, seg: Segment)

  /** A row object with its key iteration order made explicit. */
  type Row = seq<Entry>

  /** `overlap || 0`: a missing overlap counts as zero. */
  function OverlapOf(s: Segment): real
  {
    match s.overlap
    case Some(o) => o
    case None => 0.0
  }

  /** The horizontal space a segment adds to its row, `value - (overlap || 0)`. */
  function Net(s: Segment): real
  {
    s.value - OverlapOf(s)
  }

  /** The keys of an object are distinct. */
  predicate KeysUnique(row: Row)
  {
    forall i, j | 0 <= i < j < |row| :: row[i].key != row[j].key
  }

  /** `row.hasOwnProperty(k)` */
  predicate HasKey(row: Row, k: string)
  {
    exists i | 0 <= i < |row| :: row[i].key == k
  }

  /** The position of `row[k]` in the row: the first entry with key `k`. */
  function IndexOf(row: Row, k: string): (i: nat)
    requires HasKey(row, k)
    ensures i < |row| && row[i].key == k
    ensures forall j | 0 <= j < i :: row[j].key != k
  {
    if row[0].key == k then 0
    else
      assert HasKey(row[1..], k) by {
        var w :| 0 <= w < |row| && row[w].key == k;
        assert row[1..][w - 1].key == k;
      }
      1 + IndexOf(row[1..], k)
  }

  /** Two rows list the same keys in the same order. */
  predicate SameKeys(a: Row, b: Row)
  {
    |a| == |b| && forall i | 0 <= i < |a| :: a[i].key == b[i].key
  }

  /** Two rows agree, segment by segment, on everything the sums of the layout
      read: `value` and `overlap`. */
  predicate SameAmounts(a: Row, b: Row)
  {
    |a| == |b| &&
    forall i | 0 <= i < |a| :: a[i].seg.value == b[i].seg.value && a[i].seg.overlap == b[i].seg.overlap
  }

  /** Keys alone decide where a key is found. */
  lemma {:induction false} IndexOfSameKeys(a: Row, b: Row, k: string)
    requires SameKeys(a, b) && HasKey(a, k)
    ensures HasKey(b, k) && IndexOf(b, k) == IndexOf(a, k)
  {
  }
}
