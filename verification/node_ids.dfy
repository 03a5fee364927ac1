/** The `id` of a node group, `node-${row}`, and how the click handler reads
    the row back: `+id.split('-')[1]`. */
module NodeIds {
  import opened Segments

  // ---------------------------------------------------------------------------
  // Decimal numerals
  // ---------------------------------------------------------------------------

  predicate IsDigit(c: char)
  {
    '0' <= c <= '9'
  }

  function DigitChar(d: nat): (c: char)
    requires d < 10
    ensures IsDigit(c)
  {
    ['0', '1', '2', '3', '4', '5', '6', '7', '8', '9'][d]
  }

  function DigitValue(c: char): nat
    requires IsDigit(c)
  {
    (c as int - '0' as int) as nat
  }

  /** How a template literal prints a row index: plain decimal, no sign, no
      leading zeros. */
  function NatToString(n: nat): (s: string)
    ensures s != [] && forall i | 0 <= i < |s| :: IsDigit(s[i])
    ensures s[0] == '0' ==> n == 0
  {
    if n < 10 then [DigitChar(n)] else NatToString(n / 10) + [DigitChar(n % 10)]
  }

  /** The value of a string of decimal digits. */
  function DigitsValue(s: string): nat
    requires forall i | 0 <= i < |s| :: IsDigit(s[i])
  {
    if s == [] then 0 else DigitsValue(s[..|s| - 1]) * 10 + DigitValue(s[|s| - 1])
  }

  lemma {:induction false} DigitsValueOfNatToString(n: nat)
    ensures DigitsValue(NatToString(n)) == n
  {
    var s := NatToString(n);
    if n >= 10 {
      DigitsValueOfNatToString(n / 10);
      assert s[..|s| - 1] == NatToString(n / 10);
    } else {
      assert s[..0] == [];
    }
  }

  /** `+s` for the strings this model reads: the empty string is 0, a string
      of decimal digits its value; anything else is `None`. */
  function ToNumber(s: string): (r: Option<nat>)
    ensures s == [] ==> r == Some(0)
    ensures (exists i | 0 <= i < |s| :: !IsDigit(s[i])) <==> r == None
    ensures r.Some? ==> r.value == DigitsValue(s)
  {
    if forall i | 0 <= i < |s| :: IsDigit(s[i]) then Some(DigitsValue(s)) else None
  }

  // ---------------------------------------------------------------------------
  // `String.prototype.split` with a one-character separator
  // ---------------------------------------------------------------------------

  /** The parts joined back with the separator between them. */
  function Join(parts: seq<string>, sep: char): string
    requires parts != []
  {
    if |parts| == 1 then parts[0] else parts[0] + [sep] + Join(parts[1..], sep)
  }

  function IndexOfChar(s: string, c: char): (i: nat)
    requires c in s
    ensures i < |s| && s[i] == c && c !in s[..i]
  {
    if s[0] == c then 0
    else
      assert c in s[1..];
      var j := IndexOfChar(s[1..], c);
      assert s[1..][..j] == s[1..j + 1];
      1 + j
  }

  /** `s.split(sep)`: the pieces between the occurrences of `sep`. */
  function Split(s: string, sep: char): (parts: seq<string>)
    ensures parts != []
    ensures forall i | 0 <= i < |parts| :: sep !in parts[i]
    ensures Join(parts, sep) == s
    decreases |s|
  {
    if sep !in s then [s]
    else
      var i := IndexOfChar(s, sep);
      var rest := Split(s[i + 1..], sep);
      var parts := [s[..i]] + rest;
      assert parts[1..] == rest;
      assert s == s[..i] + [sep] + s[i + 1..];
      parts
  }

  /** Splitting undoes joining parts that do not contain the separator. */
  lemma {:induction false} SplitJoin(parts: seq<string>, sep: char)
    requires parts != [] && forall i | 0 <= i < |parts| :: sep !in parts[i]
    ensures Split(Join(parts, sep), sep) == parts
  {
    var s := Join(parts, sep);
    if |parts| > 1 {
      var tail := Join(parts[1..], sep);
      assert s == parts[0] + [sep] + tail;
      assert sep in s by {
        assert s[|parts[0]|] == sep;
      }
      var i := IndexOfChar(s, sep);
      assert forall j | 0 <= j < |parts[0]| :: s[j] == parts[0][j] != sep;
      assert s[..i] == parts[0];
      assert s[i + 1..] == tail;
      SplitJoin(parts[1..], sep);
    }
  }

  // ---------------------------------------------------------------------------
  // Node ids
  // ---------------------------------------------------------------------------

  const NODE_PREFIX: string := "node"

  /** `node-${row}` */
  function NodeId(row: nat): string
  {
    NODE_PREFIX + "-" + NatToString(row)
  }

  /** `+id.split('-')[1]`; an id with no second piece reads `undefined`,
      which is NaN, here `None`. */
  function ParseRow(id: string): Option<nat>
  {
    var parts := Split(id, '-');
    if |parts| < 2 then None else ToNumber(parts[1])
  }

  /** Reading the row back from a node's id gives the row it was drawn for. */
  lemma {:induction false} ParseRowOfNodeId(row: nat)
    ensures ParseRow(NodeId(row)) == Some(row)
  {
    var digits := NatToString(row);
    assert forall i | 0 <= i < |digits| :: digits[i] != '-';
    var parts := [NODE_PREFIX, digits];
    assert parts[1..] == [digits];
    assert Join(parts, '-') == NodeId(row);
    SplitJoin(parts, '-');
    DigitsValueOfNatToString(row);
  }
}
