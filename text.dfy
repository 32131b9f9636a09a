/** Character classes of Python's `re` module and the two scanning steps every
    pattern of app.py is built from: the end of a greedy run of one class, and
    `re.search`'s leftmost choice of a starting position.

    The classes are those of a `str` pattern restricted to ASCII: any other
    character is treated as neither a digit, a word character nor whitespace. */
module Text {
  import opened Wrappers

  /** `\d` */
  predicate IsDigit(c: char) {
    '0' <= c <= '9'
  }

  /** `\w`: letters, digits and the underscore. */
  predicate IsWordChar(c: char) {
    'a' <= c <= 'z' || 'A' <= c <= 'Z' || IsDigit(c) || c == '_'
  }

  /** `\s`: space, tab, line feed, vertical tab, form feed, carriage return and
      the four ASCII separators 0x1C..0x1F, which `str.isspace` also accepts. */
  predicate IsSpace(c: char) {
    c == ' ' || '\U{9}' <= c <= '\U{D}' || '\U{1C}' <= c <= '\U{1F}'
  }

  predicate AllDigits(s: string) {
    forall k | 0 <= k < |s| :: IsDigit(s[k])
  }

  /** The end of the longest run of `inClass` characters starting at `i`:
      what a greedy `\s*`, `\d+` or `\w+` consumes from `i`. */
  function RunEnd(s: string, i: nat, inClass: char -> bool): (e: nat)
    requires i <= |s|
    ensures i <= e <= |s|
    ensures forall k | i <= k < e :: inClass(s[k])
    ensures e == |s| || !inClass(s[e])
    decreases |s| - i
  {
    if i == |s| || !inClass(s[i]) then i else RunEnd(s, i + 1, inClass)
  }

  /** A run that stops exactly where the class stops is the greedy one, so a
      backtracking engine has no other end to choose. */
  lemma RunEndUnique(s: string, i: nat, inClass: char -> bool, e: nat)
    requires i <= e <= |s|
    requires forall k | i <= k < e :: inClass(s[k])
    requires e == |s| || !inClass(s[e])
    ensures RunEnd(s, i, inClass) == e
  {
  }

  /** `re.search` tries the starting positions `from`, `from + 1`, ..., `|s|`
      in turn and stops at the first one where the pattern matches. */
  function Leftmost(s: string, matchAt: (string, nat) -> Option<string>, from: nat): (p: Option<nat>)
    requires from <= |s|
    ensures p.Some? ==> from <= p.value <= |s| && matchAt(s, p.value).Some?
    ensures p.Some? ==> forall j | from <= j < p.value :: matchAt(s, j).None?
    ensures p.None? ==> forall j | from <= j <= |s| :: matchAt(s, j).None?
    decreases |s| - from
  {
    if matchAt(s, from).Some? then Some(from)
    else if from == |s| then None
    else Leftmost(s, matchAt, from + 1)
  }
}
