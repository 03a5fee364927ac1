/** `findRowValueByKey(data, keyToFind)`: the `row` field of the first segment
    found under `keyToFind`, scanning the rows in order, or -1. */
module Lookup {
  import opened Segments

  /** The first row that holds key `k`, if any. */
  function FirstRowWith(data: seq<Row>, k: string): (r: Option<nat>)
    ensures r.Some? ==> r.value < |data| && HasKey(data[r.value], k)
    ensures r.Some? ==> forall j | 0 <= j < r.value :: !HasKey(data[j], k)
    ensures r.None? <==> forall j | 0 <= j < |data| :: !HasKey(data[j], k)
  {
    if data == [] then None
    else if HasKey(data[0], k) then Some(0)
    else
      match FirstRowWith(data[1..], k)
      case None => None
      case Some(j) => Some(j + 1)
  }

  /** What `findRowValueByKey` returns. */
  function RowValueByKey(data: seq<Row>, k: string): int
  {
    match FirstRowWith(data, k)
    case None => -1
    case Some(r) => data[r][IndexOf(data[r], k)].seg.row
  }

  /** The loop of `findRowValueByKey`, returning on the first row that holds
      the key. */
  method FindRowValueByKey(data: seq<Row>, keyToFind: string) returns (r: int)
    ensures r == RowValueByKey(data, keyToFind)
  {
    var i := 0;
    while i < |data|
      invariant 0 <= i <= |data|
      invariant forall j | 0 <= j < i :: !HasKey(data[j], keyToFind)
    {
      if HasKey(data[i], keyToFind) {
        return data[i][IndexOf(data[i], keyToFind)].seg.row;
      }
      i := i + 1;
    }
    return -1;
  }

  /** Once `updateChart` has written each segment's row index onto it, the
      lookup answers -1 exactly when no row holds the key, and otherwise the
      index of the first row that does. */
  lemma {:induction false} RowValueIsFirstRow(data: seq<Row>, k: string)
    requires forall r, i | 0 <= r < |data| && 0 <= i < |data[r]| :: data[r][i].seg.row == r
    ensures RowValueByKey(data, k) == -1 <==> forall r | 0 <= r < |data| :: !HasKey(data[r], k)
    ensures RowValueByKey(data, k) != -1 ==>
              && 0 <= RowValueByKey(data, k) < |data|
              && HasKey(data[RowValueByKey(data, k)], k)
              && forall r | 0 <= r < RowValueByKey(data, k) :: !HasKey(data[r], k)
  {
  }
}
