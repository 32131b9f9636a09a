/** The serial-number scanner of app.py:72, `re.search(r'Payment Serial
    Number\s*:\s*(\d+)', text)` followed by `match.group(1)`. */
module SerialScan {
  import opened Wrappers
  import opened Text

  const Label: string := "Payment Serial Number"

  /** The pattern anchored at position `i`: the label, a greedy `\s*`, a colon,
      a greedy `\s*` and a greedy `(\d+)`. The captured group, if it matches. */
  function SerialAt(s: string, i: nat): (r: Option<string>)
    ensures r.Some? ==> r.value != "" && AllDigits(r.value)
  {
    if i + |Label| <= |s| && s[i..i + |Label|] == Label then
      var colon := RunEnd(s, i + |Label|, IsSpace);
      if colon < |s| && s[colon] == ':' then
        var b := RunEnd(s, colon + 1, IsSpace);
        var e := RunEnd(s, b, IsDigit);
        if b < e then Some(s[b..e]) else None
      else None
    else None
  }

  /** The serial number of a page text: the group captured at the leftmost
      position where the pattern matches. */
  function FindSerial(text: string): (r: Option<string>)
    ensures r.Some? ==> r.value != "" && AllDigits(r.value)
  {
    match Leftmost(text, SerialAt, 0)
    case None => None
    case Some(p) => SerialAt(text, p)
  }

  /** The regular expression's meaning, stated by positions: the label starts
      at `i`, whitespace runs up to the colon at `colon`, whitespace runs up to
      `b`, and `s[b..e]` is a digit run that no further digit extends (the
      greedy `\d+` takes them all). */
  ghost predicate SerialShape(s: string, i: nat, colon: nat, b: nat, e: nat) {
    i + |Label| <= colon < b < e <= |s|
    && s[i..i + |Label|] == Label
    && (forall k | i + |Label| <= k < colon :: IsSpace(s[k]))
    && s[colon] == ':'
    && (forall k | colon < k < b :: IsSpace(s[k]))
    && (forall k | b <= k < e :: IsDigit(s[k]))
    && (e == |s| || !IsDigit(s[e]))
  }

  ghost predicate SerialMatchesAt(s: string, i: nat) {
    exists colon: nat, b: nat, e: nat :: SerialShape(s, i, colon, b, e)
  }

  /** The anchored scanner succeeds exactly where the pattern matches, and
      then captures the pattern's digit group. */
  lemma SerialAtIsPatternMatch(s: string, i: nat)
    ensures SerialAt(s, i).Some? <==> SerialMatchesAt(s, i)
    ensures forall colon: nat, b: nat, e: nat | SerialShape(s, i, colon, b, e) :: SerialAt(s, i) == Some(s[b..e])
  {
    if SerialAt(s, i).Some? {
      var colon := RunEnd(s, i + |Label|, IsSpace);
      var b := RunEnd(s, colon + 1, IsSpace);
      var e := RunEnd(s, b, IsDigit);
      assert SerialShape(s, i, colon, b, e);
    }
    forall colon: nat, b: nat, e: nat | SerialShape(s, i, colon, b, e)
      ensures SerialAt(s, i) == Some(s[b..e])
    {
      RunEndUnique(s, i + |Label|, IsSpace, colon);
      RunEndUnique(s, colon + 1, IsSpace, b);
      RunEndUnique(s, b, IsDigit, e);
    }
  }

  /** `FindSerial` finds nothing exactly when the pattern matches nowhere in
      the text; otherwise it returns the digit group of the leftmost match. */
  lemma FindSerialIsLeftmostMatch(text: string)
    ensures FindSerial(text).None? <==> forall i: nat | i <= |text| :: !SerialMatchesAt(text, i)
    ensures forall i: nat, colon: nat, b: nat, e: nat |
              SerialShape(text, i, colon, b, e) && (forall j: nat | j < i :: !SerialMatchesAt(text, j)) ::
              FindSerial(text) == Some(text[b..e])
  {
    forall i: nat | i <= |text| {
      SerialAtIsPatternMatch(text, i);
    }
    forall i: nat, colon: nat, b: nat, e: nat |
      SerialShape(text, i, colon, b, e) && (forall j: nat | j < i :: !SerialMatchesAt(text, j))
      ensures FindSerial(text) == Some(text[b..e])
    {
      SerialAtIsPatternMatch(text, i);
      var p := Leftmost(text, SerialAt, 0);
      assert p.Some?;
      SerialAtIsPatternMatch(text, p.value);
      assert p.value == i;
    }
  }
}
