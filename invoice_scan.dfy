/** The invoice-number scanner of app.py:79, `re.findall(r'\b\d{5,}\b', text)`. */
module InvoiceScan {
  import opened Wrappers
  import opened Text

  /** The fewest digits an invoice number has (`\d{5,}`). */
  const MinDigits: nat := 5

  /** `\b` at position `i`: a word character on exactly one side of it. */
  predicate Boundary(s: string, i: nat) {
    (0 < i <= |s| && IsWordChar(s[i - 1])) != (i < |s| && IsWordChar(s[i]))
  }

  /** The pattern anchored at `i`: the end of the match, if any. The greedy
      `\d{5,}` first takes the whole digit run; it would give digits back only
      if the closing `\b` failed, and `InvoiceAtIsPatternMatch` shows that
      giving them back never helps. */
  function InvoiceAt(s: string, i: nat): (r: Option<nat>)
    ensures r.Some? ==> i + MinDigits <= r.value <= |s| && AllDigits(s[i..r.value])
  {
    if i <= |s| && Boundary(s, i) then
      var e := RunEnd(s, i, IsDigit);
      if i + MinDigits <= e && Boundary(s, e) then Some(e) else None
    else None
  }

  /** No shorter end than the greedy one satisfies the closing `\b`. */
  lemma NoBoundaryInsideDigitRun(s: string, i: nat, k: nat)
    requires i <= |s| && i < k < RunEnd(s, i, IsDigit)
    ensures !Boundary(s, k)
  {
  }

  /** The pattern's meaning by positions: `\b` at `i`, at least five digits
      up to `e`, and `\b` at `e`. Any such `e` is an end a backtracking engine
      could accept. */
  ghost predicate InvoiceShape(s: string, i: nat, e: nat) {
    i + MinDigits <= e <= |s|
    && Boundary(s, i)
    && (forall k | i <= k < e :: IsDigit(s[k]))
    && Boundary(s, e)
  }

  /** The anchored scanner succeeds exactly where the pattern can match, and
      the pattern can end in only one place, the one the scanner returns. */
  lemma InvoiceAtIsPatternMatch(s: string, i: nat)
    ensures InvoiceAt(s, i).Some? <==> exists e: nat :: InvoiceShape(s, i, e)
    ensures forall e: nat | InvoiceShape(s, i, e) :: InvoiceAt(s, i) == Some(e)
  {
    if InvoiceAt(s, i).Some? {
      assert InvoiceShape(s, i, InvoiceAt(s, i).value);
    }
    forall e: nat | InvoiceShape(s, i, e)
      ensures InvoiceAt(s, i) == Some(e)
    {
      if e < RunEnd(s, i, IsDigit) {
        NoBoundaryInsideDigitRun(s, i, e);
      }
    }
  }

  /** `findall` from position `i`: after a match it resumes at the match's
      end, after a failed attempt at the next position. */
  function FindAllFrom(s: string, i: nat): (r: seq<string>)
    requires i <= |s|
    ensures forall w | w in r :: IsInvoiceNumber(w)
    decreases |s| - i
  {
    if i == |s| then []
    else match InvoiceAt(s, i)
      case Some(e) => [s[i..e]] + FindAllFrom(s, e)
      case None => FindAllFrom(s, i + 1)
  }

  /** The invoice numbers of a page text, in order of appearance. */
  function FindInvoices(text: string): (r: seq<string>)
    ensures forall w | w in r :: IsInvoiceNumber(w)
  {
    FindAllFrom(text, 0)
  }

  // ---- The reference: filter the words of the text ----

  predicate IsInvoiceNumber(w: string) {
    |w| >= MinDigits && AllDigits(w)
  }

  /** `[b, e)` is a maximal run of word characters. */
  ghost predicate MaximalWordRun(s: string, b: nat, e: nat) {
    b < e <= |s|
    && (forall k | b <= k < e :: IsWordChar(s[k]))
    && (b == 0 || !IsWordChar(s[b - 1]))
    && (e == |s| || !IsWordChar(s[e]))
  }

  /** Position `i` lies strictly inside a word. */
  predicate InsideWord(s: string, i: nat) {
    0 < i < |s| && IsWordChar(s[i - 1]) && IsWordChar(s[i])
  }

  /** The maximal word-character runs from `i` on, in order. */
  function WordsFrom(s: string, i: nat): (ws: seq<string>)
    requires i <= |s|
    decreases |s| - i
  {
    if i == |s| then []
    else if !IsWordChar(s[i]) then WordsFrom(s, i + 1)
    else
      var e := RunEnd(s, i, IsWordChar);
      [s[i..e]] + WordsFrom(s, e)
  }

  function Words(s: string): (ws: seq<string>) {
    WordsFrom(s, 0)
  }

  /** The words that are invoice numbers, in their order. */
  function InvoiceWords(ws: seq<string>): (r: seq<string>)
  {
    if ws == [] then []
    else (if IsInvoiceNumber(ws[0]) then [ws[0]] else []) + InvoiceWords(ws[1..])
  }

  /** A failed attempt inside a word leaves the scan where the word ends. */
  lemma {:induction false} SkipRestOfWord(s: string, i: nat)
    requires 0 < i <= |s| && IsWordChar(s[i - 1])
    ensures FindAllFrom(s, i) == FindAllFrom(s, RunEnd(s, i, IsWordChar))
    decreases |s| - i
  {
    if i < |s| && IsWordChar(s[i]) {
      assert !Boundary(s, i);
      SkipRestOfWord(s, i + 1);
    }
  }

  /** Digits are word characters, so a digit run ends no later than the word. */
  lemma DigitRunWithinWord(s: string, i: nat)
    requires i <= |s|
    ensures RunEnd(s, i, IsDigit) <= RunEnd(s, i, IsWordChar)
  {
  }

  /** A word that is an invoice number is the match at its start. */
  lemma InvoiceWordMatches(s: string, i: nat)
    requires i < |s| && IsWordChar(s[i]) && !InsideWord(s, i)
    requires IsInvoiceNumber(s[i..RunEnd(s, i, IsWordChar)])
    ensures InvoiceAt(s, i) == Some(RunEnd(s, i, IsWordChar))
  {
    var we := RunEnd(s, i, IsWordChar);
    assert forall k | i <= k < we :: s[i..we][k - i] == s[k];
    RunEndUnique(s, i, IsDigit, we);
    assert Boundary(s, i);
  }

  /** Any other word has no match at its start. */
  lemma OtherWordFails(s: string, i: nat)
    requires i < |s| && IsWordChar(s[i]) && !InsideWord(s, i)
    requires !IsInvoiceNumber(s[i..RunEnd(s, i, IsWordChar)])
    ensures InvoiceAt(s, i) == None
  {
    var we := RunEnd(s, i, IsWordChar);
    var de := RunEnd(s, i, IsDigit);
    DigitRunWithinWord(s, i);
    if i + MinDigits <= de && Boundary(s, de) {
      RunEndUnique(s, i, IsWordChar, de);
      assert false;
    }
  }

  /** At a character that is not a word character the scan moves on by one. */
  lemma NonWordStep(s: string, i: nat)
    requires i < |s| && !IsWordChar(s[i])
    ensures FindAllFrom(s, i) == FindAllFrom(s, i + 1)
  {
    assert RunEnd(s, i, IsDigit) == i;
  }

  /** From the start of a word, the scan yields that word if it is an invoice
      number and then carries on where the word ends. */
  lemma WordStartStep(s: string, i: nat)
    requires i < |s| && IsWordChar(s[i]) && !InsideWord(s, i)
    ensures var we := RunEnd(s, i, IsWordChar);
      FindAllFrom(s, i) == (if IsInvoiceNumber(s[i..we]) then [s[i..we]] else []) + FindAllFrom(s, we)
  {
    var we := RunEnd(s, i, IsWordChar);
    if IsInvoiceNumber(s[i..we]) {
      InvoiceWordMatches(s, i);
    } else {
      OtherWordFails(s, i);
      SkipRestOfWord(s, i + 1);
      assert RunEnd(s, i + 1, IsWordChar) == we;
    }
  }

  lemma {:induction false} FindAllFromIsInvoiceWords(s: string, i: nat)
    requires i <= |s| && !InsideWord(s, i)
    ensures FindAllFrom(s, i) == InvoiceWords(WordsFrom(s, i))
    decreases |s| - i
  {
    if i == |s| {
    } else if !IsWordChar(s[i]) {
      NonWordStep(s, i);
      FindAllFromIsInvoiceWords(s, i + 1);
    } else {
      var we := RunEnd(s, i, IsWordChar);
      var ws := WordsFrom(s, i);
      assert ws == [s[i..we]] + WordsFrom(s, we);
      assert ws[1..] == WordsFrom(s, we);
      WordStartStep(s, i);
      FindAllFromIsInvoiceWords(s, we);
    }
  }

  /** The scanner finds exactly the words of the text that are all digits and
      at least five long, in order: a digit run touching a letter or `_` is
      part of a longer word and is never taken. */
  lemma FindInvoicesIsInvoiceWords(text: string)
    ensures FindInvoices(text) == InvoiceWords(Words(text))
  {
    FindAllFromIsInvoiceWords(text, 0);
  }

  /** `w` occurs in `s` as a maximal word-character run at or after `from`. */
  ghost predicate WordOf(s: string, w: string, from: nat) {
    exists b: nat, e: nat :: from <= b && MaximalWordRun(s, b, e) && w == s[b..e]
  }

  lemma {:induction false} WordsFromAreMaximalRuns(s: string, i: nat)
    requires i <= |s| && !InsideWord(s, i)
    ensures forall w | w in WordsFrom(s, i) :: WordOf(s, w, i)
    decreases |s| - i
  {
    if i == |s| {
    } else if !IsWordChar(s[i]) {
      WordsFromAreMaximalRuns(s, i + 1);
    } else {
      var we := RunEnd(s, i, IsWordChar);
      assert MaximalWordRun(s, i, we);
      WordsFromAreMaximalRuns(s, we);
      assert WordsFrom(s, i) == [s[i..we]] + WordsFrom(s, we);
    }
  }

  lemma {:induction false} MaximalRunInWordsFrom(s: string, i: nat, b: nat, e: nat)
    requires i <= b && !InsideWord(s, i) && MaximalWordRun(s, b, e)
    ensures s[b..e] in WordsFrom(s, i)
    decreases |s| - i
  {
    if !IsWordChar(s[i]) {
      MaximalRunInWordsFrom(s, i + 1, b, e);
    } else {
      var we := RunEnd(s, i, IsWordChar);
      assert WordsFrom(s, i) == [s[i..we]] + WordsFrom(s, we);
      if i == b {
        RunEndUnique(s, i, IsWordChar, e);
      } else {
        assert we <= b;
        MaximalRunInWordsFrom(s, we, b, e);
      }
    }
  }

  lemma {:induction false} InvoiceWordsMembers(ws: seq<string>, w: string)
    ensures w in InvoiceWords(ws) <==> w in ws && IsInvoiceNumber(w)
  {
    if ws != [] {
      InvoiceWordsMembers(ws[1..], w);
      assert ws == [ws[0]] + ws[1..];
    }
  }

  /** A string is captured exactly when it is a maximal run of word
      characters of the text that is all digits and at least five long: a
      shorter run is never captured, and neither is a digit run that touches a
      letter or `_`. */
  lemma InvoiceNumbersAreMaximalDigitRuns(text: string, w: string)
    ensures w in FindInvoices(text) <==> IsInvoiceNumber(w) && WordOf(text, w, 0)
  {
    FindInvoicesIsInvoiceWords(text);
    InvoiceWordsMembers(Words(text), w);
    WordsFromAreMaximalRuns(text, 0);
    if IsInvoiceNumber(w) && WordOf(text, w, 0) {
      var b: nat, e: nat :| MaximalWordRun(text, b, e) && w == text[b..e];
      MaximalRunInWordsFrom(text, 0, b, e);
    }
  }
}
