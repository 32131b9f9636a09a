/** The spreadsheet cell holding a batch's invoice numbers, `", ".join(...)`
    (app.py:83), and Python's `str.split(", ")` that reads it back. */
module InvoiceCell {

  const Separator: string := ", "

  /** `", ".join(xs)` */
  function Join(xs: seq<string>): (cell: string)
    decreases |xs|
  {
    if xs == [] then ""
    else if |xs| == 1 then xs[0]
    else xs[0] + Separator + Join(xs[1..])
  }

  /** `cell.split(", ")`: cut at each occurrence of the separator, leftmost first. */
  function Split(cell: string): (parts: seq<string>)
    ensures |parts| >= 1
    decreases |cell|
  {
    if cell == "" then [""]
    else if |cell| >= 2 && cell[..2] == Separator then [""] + Split(cell[2..])
    else
      var rest := Split(cell[1..]);
      [[cell[0]] + rest[0]] + rest[1..]
  }

  /** Reading a cell back: the empty cell stands for the empty list (Python's
      split would give `[""]`). */
  function ParseCell(cell: string): (xs: seq<string>) {
    if cell == "" then [] else Split(cell)
  }

  predicate NoComma(x: string) {
    forall k | 0 <= k < |x| :: x[k] != ','
  }

  lemma {:induction false} SplitPlain(x: string)
    requires NoComma(x)
    ensures Split(x) == [x]
    decreases |x|
  {
    if x != "" {
      SplitPlain(x[1..]);
      assert [x[0]] + x[1..] == x;
    }
  }

  lemma {:induction false} SplitAfterPlain(x: string, rest: string)
    requires NoComma(x)
    ensures Split(x + Separator + rest) == [x] + Split(rest)
    decreases |x|
  {
    var cell := x + Separator + rest;
    if x == "" {
      assert cell[..2] == Separator && cell[2..] == rest;
    } else {
      assert cell[0] == x[0] && cell[1..] == x[1..] + Separator + rest;
      SplitAfterPlain(x[1..], rest);
      assert [x[0]] + x[1..] == x;
    }
  }

  /** Splitting the cell recovers the list when no element is empty or holds
      a comma, as invoice numbers never do; the empty list gives the empty cell. */
  lemma {:induction false} JoinParseRoundTrip(xs: seq<string>)
    requires forall x | x in xs :: x != "" && NoComma(x)
    ensures ParseCell(Join(xs)) == xs
    decreases |xs|
  {
    if xs == [] {
    } else if |xs| == 1 {
      SplitPlain(xs[0]);
    } else {
      assert forall x | x in xs[1..] :: x in xs;
      JoinParseRoundTrip(xs[1..]);
      SplitAfterPlain(xs[0], Join(xs[1..]));
      assert xs[1] in xs;
      assert Join(xs[1..]) != "";
      assert xs == [xs[0]] + xs[1..];
    }
  }
}
