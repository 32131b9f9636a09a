/** The page count of app.py:41-44: `int(re.search(r'Pages:\s+(\d+)',
    info).group(1))` over the text that the `pdfinfo` tool prints. The search
    takes the leftmost match anywhere in that text, so a metadata line printed
    before the tool's own `Pages:` line can supply the count. When the search
    finds nothing, `.group` fails, and when the digits exceed the interpreter's
    limit on integer strings, `int()` fails; either way the request is aborted. */
module PageCount {
  import opened Wrappers
  import opened Text

  const Key: string := "Pages:"

  /** The most decimal digits `int()` converts: CPython's default
      `int_max_str_digits`. A longer digit string raises `ValueError`. */
  const MaxIntDigits: nat := 4300

  /** `int()` of a run of ASCII digits: its decimal value (leading zeros allowed). */
  function DecimalValue(d: string): (n: nat)
    requires AllDigits(d)
    decreases |d|
  {
    if d == "" then 0
    else 10 * DecimalValue(d[..|d| - 1]) + (d[|d| - 1] as int - '0' as int)
  }

  /** The pattern anchored at `i`: the key, a greedy `\s+` and a greedy `(\d+)`. */
  function PagesAt(s: string, i: nat): (r: Option<string>)
    ensures r.Some? ==> r.value != "" && AllDigits(r.value)
  {
    if i + |Key| <= |s| && s[i..i + |Key|] == Key then
      var b := RunEnd(s, i + |Key|, IsSpace);
      var e := RunEnd(s, b, IsDigit);
      if i + |Key| < b && b < e then Some(s[b..e]) else None
    else None
  }

  /** The page count of the tool's output, or `None` when the key is not
      followed anywhere by whitespace and digits, or when the digits of the
      leftmost match are more than `int()` accepts. */
  function ParsePageCount(info: string): (r: Option<nat>)
  {
    match Leftmost(info, PagesAt, 0)
    case None => None
    case Some(p) =>
      var digits := PagesAt(info, p).value;
      if |digits| > MaxIntDigits then None else Some(DecimalValue(digits))
  }

  /** The pattern's meaning by positions: `Pages:` at `i`, at least one
      whitespace character up to `b`, and the digit run `s[b..e]` that no
      further digit extends. */
  ghost predicate PagesShape(s: string, i: nat, b: nat, e: nat) {
    i + |Key| < b < e <= |s|
    && s[i..i + |Key|] == Key
    && (forall k | i + |Key| <= k < b :: IsSpace(s[k]))
    && (forall k | b <= k < e :: IsDigit(s[k]))
    && (e == |s| || !IsDigit(s[e]))
  }

  ghost predicate PagesMatchAt(s: string, i: nat) {
    exists b: nat, e: nat :: PagesShape(s, i, b, e)
  }

  /** The match `re.search` returns: the pattern matches at `i` and at no
      earlier position. */
  ghost predicate LeftmostPagesShape(s: string, i: nat, b: nat, e: nat) {
    PagesShape(s, i, b, e) && forall j: nat | j < i :: !PagesMatchAt(s, j)
  }

  lemma PagesAtIsPatternMatch(s: string, i: nat)
    ensures PagesAt(s, i).Some? <==> PagesMatchAt(s, i)
    ensures forall b: nat, e: nat | PagesShape(s, i, b, e) :: PagesAt(s, i) == Some(s[b..e])
  {
    if PagesAt(s, i).Some? {
      var b := RunEnd(s, i + |Key|, IsSpace);
      var e := RunEnd(s, b, IsDigit);
      assert PagesShape(s, i, b, e);
    }
    forall b: nat, e: nat | PagesShape(s, i, b, e)
      ensures PagesAt(s, i) == Some(s[b..e])
    {
      RunEndUnique(s, i + |Key|, IsSpace, b);
      RunEndUnique(s, b, IsDigit, e);
    }
  }

  /** The request is aborted exactly when the pattern matches nowhere or the
      leftmost match has more digits than `int()` accepts; otherwise the page
      count is the value of the leftmost match's digits. */
  lemma ParsePageCountIsLeftmostMatch(info: string)
    ensures ParsePageCount(info).None? <==>
              (forall i: nat | i <= |info| :: !PagesMatchAt(info, i))
              || exists i: nat, b: nat, e: nat :: LeftmostPagesShape(info, i, b, e) && e - b > MaxIntDigits
    ensures forall i: nat, b: nat, e: nat | LeftmostPagesShape(info, i, b, e) ::
              AllDigits(info[b..e])
              && ParsePageCount(info) == if e - b > MaxIntDigits then None else Some(DecimalValue(info[b..e]))
  {
    forall i: nat | i <= |info| {
      PagesAtIsPatternMatch(info, i);
    }
    forall i: nat, b: nat, e: nat | LeftmostPagesShape(info, i, b, e)
      ensures AllDigits(info[b..e])
              && ParsePageCount(info) == if e - b > MaxIntDigits then None else Some(DecimalValue(info[b..e]))
    {
      PagesAtIsPatternMatch(info, i);
      var p := Leftmost(info, PagesAt, 0);
      assert p.Some?;
      PagesAtIsPatternMatch(info, p.value);
      assert p.value == i;
    }
    var p := Leftmost(info, PagesAt, 0);
    if p.Some? {
      var i := p.value;
      var b := RunEnd(info, i + |Key|, IsSpace);
      var e := RunEnd(info, b, IsDigit);
      assert PagesShape(info, i, b, e);
      assert LeftmostPagesShape(info, i, b, e);
    }
  }

  /** `pdfinfo` prints the document's title before its own `Pages:` line, so
      a title holding `Pages: 2` decides the count of a nine-page document. */
  const TitledInfo: string := "Title: Pages: 2\nPages: 9\n"

  lemma TitleMatchesAtSeven()
    ensures PagesAt(TitledInfo, 7) == Some("2")
  {
    var s := TitledInfo;
    assert s[7..13] == Key;
    assert RunEnd(s, 13, IsSpace) == 14;
    assert RunEnd(s, 14, IsDigit) == 15;
    assert s[14..15] == "2";
  }

  lemma NoMatchBeforeSeven(j: nat)
    requires j < 7
    ensures PagesAt(TitledInfo, j).None?
  {
    var s := TitledInfo;
    assert s[j] != Key[0];
    assert s[j..j + |Key|][0] == s[j];
  }

  lemma TitleBeforePagesLine()
    ensures ParsePageCount(TitledInfo) == Some(2)
  {
    TitleMatchesAtSeven();
    forall j: nat | j < 7
      ensures PagesAt(TitledInfo, j).None?
    {
      NoMatchBeforeSeven(j);
    }
    assert Leftmost(TitledInfo, PagesAt, 0) == Some(7);
    assert DecimalValue("2") == 2 by { assert "2"[..0] == ""; }
  }

  /** A `Pages:` followed by whitespace but no digit does not match, and the
      search goes on to the next one. */
  const UnreadableFirstInfo: string := "Pages: x\nPages: 9\n"

  lemma NoDigitsAtZero()
    ensures PagesAt(UnreadableFirstInfo, 0).None?
  {
    var s := UnreadableFirstInfo;
    assert s[0..6] == Key;
    assert RunEnd(s, 6, IsSpace) == 7;
    assert RunEnd(s, 7, IsDigit) == 7;
  }

  lemma SecondLineMatchesAtNine()
    ensures PagesAt(UnreadableFirstInfo, 9) == Some("9")
  {
    var s := UnreadableFirstInfo;
    assert s[9..15] == Key;
    assert RunEnd(s, 15, IsSpace) == 16;
    assert RunEnd(s, 16, IsDigit) == 17;
    assert s[16..17] == "9";
  }

  lemma NoKeyBeforeNine(j: nat)
    requires 0 < j < 9
    ensures PagesAt(UnreadableFirstInfo, j).None?
  {
    var s := UnreadableFirstInfo;
    assert s[j] != Key[0];
    assert s[j..j + |Key|][0] == s[j];
  }

  lemma PagesWithoutDigitsIsSkipped()
    ensures ParsePageCount(UnreadableFirstInfo) == Some(9)
  {
    NoDigitsAtZero();
    SecondLineMatchesAtNine();
    forall j: nat | 0 < j < 9
      ensures PagesAt(UnreadableFirstInfo, j).None?
    {
      NoKeyBeforeNine(j);
    }
    assert Leftmost(UnreadableFirstInfo, PagesAt, 0) == Some(9);
    assert DecimalValue("9") == 9 by { assert "9"[..0] == ""; }
  }
}
