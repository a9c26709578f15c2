/** Character classes and whitespace trimming shared by the JavaScript and
    Python parts of the model. Strings are sequences of Unicode scalar values;
    where JavaScript counts UTF-16 code units instead, `Utf16Length` says so. */
module Chars {

  /** `\d` in a JavaScript regular expression: the ASCII digits only. */
  predicate IsDigit(c: char) {
    '0' <= c <= '9'
  }

  /** `\w` of a JavaScript regular expression without the `u` flag, the class
      that decides where `\b` holds: [A-Za-z0-9_]. */
  predicate IsWordChar(c: char) {
    IsDigit(c) || ('a' <= c <= 'z') || ('A' <= c <= 'Z') || c == '_'
  }

  predicate AllDigits(s: string) {
    forall i :: 0 <= i < |s| ==> IsDigit(s[i])
  }

  function DigitValue(c: char): (d: nat)
    requires IsDigit(c)
    ensures d < 10
  {
    c as int - '0' as int
  }

  /** ASCII case folding. Without the `u` flag a case-insensitive JavaScript
      pattern never lets a non-ASCII character match an ASCII letter, so for
      the letters of "odometer" this is exactly the `i` flag's comparison. */
  function LowerAscii(c: char): (r: char)
    ensures 'A' <= c <= 'Z' ==> r as int == c as int + 32
    ensures !('A' <= c <= 'Z') ==> r == c
  {
    if 'A' <= c <= 'Z' then (c as int + 32) as char else c
  }

  /** Number of UTF-16 code units JavaScript stores for `c`. */
  function Utf16Width(c: char): nat {
    if c as int >= 0x1_0000 then 2 else 1
  }

  /** The JavaScript `length` of `s`. */
  function Utf16Length(s: string): nat
  {
    if s == [] then 0 else Utf16Width(s[0]) + Utf16Length(s[1..])
  }

  /** JavaScript WhiteSpace and LineTerminator code points (sections 12.2 and
      12.3 of ECMA-262), the set `trim` and `parseInt` skip. */
  predicate IsJsSpace(c: char) {
    var u := c as int;
    || u == 0x09 || u == 0x0B || u == 0x0C || u == 0x20 || u == 0xA0 || u == 0xFEFF
    || u == 0x1680 || (0x2000 <= u <= 0x200A) || u == 0x202F || u == 0x205F || u == 0x3000
    || u == 0x0A || u == 0x0D || u == 0x2028 || u == 0x2029
  }

  /** Python's `str.isspace`, the set `str.strip()` removes. */
  predicate IsPySpace(c: char) {
    var u := c as int;
    || (0x09 <= u <= 0x0D) || (0x1C <= u <= 0x20) || u == 0x85 || u == 0xA0
    || u == 0x1680 || (0x2000 <= u <= 0x200A) || u == 0x2028 || u == 0x2029
    || u == 0x202F || u == 0x205F || u == 0x3000
  }

  /** Number of leading characters of `s` in the class `space`. */
  function LeadingCount(space: char -> bool, s: string): (k: nat)
    ensures k <= |s|
    ensures forall i :: 0 <= i < k ==> space(s[i])
    ensures k == |s| || !space(s[k])
  {
    if s == [] || !space(s[0]) then 0 else 1 + LeadingCount(space, s[1..])
  }

  /** Number of trailing characters of `s` in the class `space`. */
  function TrailingCount(space: char -> bool, s: string): (k: nat)
    ensures k <= |s|
    ensures forall i :: |s| - k <= i < |s| ==> space(s[i])
    ensures k == |s| || !space(s[|s| - k - 1])
  {
    if s == [] || !space(s[|s| - 1]) then 0 else 1 + TrailingCount(space, s[..|s| - 1])
  }

  /** `s` without its leading characters of class `space`. */
  function TrimStartBy(space: char -> bool, s: string): (r: string)
    ensures |r| <= |s| && r == s[|s| - |r|..]
    ensures forall i :: 0 <= i < |s| - |r| ==> space(s[i])
    ensures r == [] || !space(r[0])
  {
    s[LeadingCount(space, s)..]
  }

  /** `r` is `s[lo..hi]`, only characters of class `space` lie outside that
      slice, and `r` neither starts nor ends with one. */
  ghost predicate TrimAt(space: char -> bool, s: string, lo: nat, hi: nat, r: string) {
    && lo <= hi <= |s| && r == s[lo..hi]
    && (forall i :: 0 <= i < lo ==> space(s[i]))
    && (forall i :: hi <= i < |s| ==> space(s[i]))
    && (r == [] || (!space(r[0]) && !space(r[|r| - 1])))
  }

  /** `r` is `s` with its leading and trailing characters of class `space`
      removed. */
  ghost predicate IsTrimOf(space: char -> bool, s: string, r: string) {
    exists lo: nat, hi: nat :: TrimAt(space, s, lo, hi, r)
  }

  /** `s` without leading and trailing characters of class `space`
      (`String.prototype.trim`, Python's `str.strip`). */
  function TrimBy(space: char -> bool, s: string): (r: string)
    ensures IsTrimOf(space, s, r)
  {
    var lo := LeadingCount(space, s);
    var t := s[lo..];
    var hi := lo + |t| - TrailingCount(space, t);
    assert t[..|t| - TrailingCount(space, t)] == s[lo..hi];
    assert TrimAt(space, s, lo, hi, s[lo..hi]);
    s[lo..hi]
  }

  /** At most one string is the trim of `s`, so `IsTrimOf` pins `TrimBy`
      down. */
  lemma TrimUnique(space: char -> bool, s: string, r1: string, r2: string)
    requires IsTrimOf(space, s, r1) && IsTrimOf(space, s, r2)
    ensures r1 == r2
  {
    var lo1: nat, hi1: nat :| TrimAt(space, s, lo1, hi1, r1);
    var lo2: nat, hi2: nat :| TrimAt(space, s, lo2, hi2, r2);
    if r1 == [] {
      TrimAtEmpty(space, s, lo1, hi1, lo2, hi2, r2);
    } else if r2 == [] {
      TrimAtEmpty(space, s, lo2, hi2, lo1, hi1, r1);
    } else {
      TrimAtBounds(space, s, lo1, hi1, r1, lo2, hi2, r2);
    }
  }

  /** Every trim of `s` is `TrimBy(space, s)`. */
  lemma TrimByIsTheTrim(space: char -> bool, s: string)
    ensures forall t :: IsTrimOf(space, s, t) ==> t == TrimBy(space, s)
  {
    forall t | IsTrimOf(space, s, t) ensures t == TrimBy(space, s) {
      TrimUnique(space, s, t, TrimBy(space, s));
    }
  }

  /** An empty trim means `s` is all `space`, so every trim is empty. */
  lemma TrimAtEmpty(space: char -> bool, s: string, lo: nat, hi: nat, lo': nat, hi': nat, r': string)
    requires TrimAt(space, s, lo, hi, []) && TrimAt(space, s, lo', hi', r')
    ensures r' == []
  {
  }

  /** Two non-empty trims of `s` are the same slice. */
  lemma TrimAtBounds(space: char -> bool, s: string, lo1: nat, hi1: nat, r1: string,
                     lo2: nat, hi2: nat, r2: string)
    requires TrimAt(space, s, lo1, hi1, r1) && TrimAt(space, s, lo2, hi2, r2)
    requires r1 != [] && r2 != []
    ensures lo1 == lo2 && hi1 == hi2
  {
    assert s[lo1] == r1[0] && s[lo2] == r2[0];
    assert s[hi1 - 1] == r1[|r1| - 1] && s[hi2 - 1] == r2[|r2| - 1];
  }

  /** Trimming leaves a string that neither starts nor ends in the class
      as it is. */
  lemma TrimByUnpadded(space: char -> bool, s: string)
    requires s == [] || (!space(s[0]) && !space(s[|s| - 1]))
    ensures TrimBy(space, s) == s
  {
    assert TrimAt(space, s, 0, |s|, s);
    TrimUnique(space, s, s, TrimBy(space, s));
  }

  /** `s` occurs in `text` starting at index `i`. */
  predicate OccursAt(text: string, s: string, i: nat) {
    i + |s| <= |text| && text[i..i + |s|] == s
  }

  /** `s` occurs in `text` as a contiguous substring (Python's `in`). */
  predicate Contains(text: string, s: string) {
    exists i: nat :: i <= |text| && OccursAt(text, s, i)
  }
  /** Every character of `t[i..j]` is a digit. */
  predicate DigitsIn(t: string, i: nat, j: nat)
    requires i <= j <= |t|
  {
    forall k :: i <= k < j ==> IsDigit(t[k])
  }

  /** No character of `t[i..j]` is a digit. */
  predicate NoDigitIn(t: string, i: nat, j: nat)
    requires i <= j <= |t|
  {
    forall k :: i <= k < j ==> !IsDigit(t[k])
  }

  /** Length of the maximal run of digits starting at `i`. */
  function DigitRun(t: string, i: nat): (n: nat)
    requires i <= |t|
    ensures i + n <= |t| && DigitsIn(t, i, i + n)
    ensures i + n == |t| || !IsDigit(t[i + n])
    decreases |t| - i
  {
    if i == |t| || !IsDigit(t[i]) then 0 else 1 + DigitRun(t, i + 1)
  }

  /** Length of the maximal run of non-digits starting at `i`. */
  function NonDigitRun(t: string, i: nat): (n: nat)
    requires i <= |t|
    ensures i + n <= |t| && NoDigitIn(t, i, i + n)
    ensures i + n == |t| || IsDigit(t[i + n])
    decreases |t| - i
  {
    if i == |t| || IsDigit(t[i]) then 0 else 1 + NonDigitRun(t, i + 1)
  }

  /** The digit run at `i` is `[i, j)` when `[i, j)` is all digits and `j` ends it. */
  lemma {:induction false} DigitRunOfSpan(t: string, i: nat, j: nat)
    requires i <= j <= |t| && DigitsIn(t, i, j)
    requires j == |t| || !IsDigit(t[j])
    ensures DigitRun(t, i) == j - i
    decreases j - i
  {
    if i < j {
      DigitRunOfSpan(t, i + 1, j);
    }
  }

  /** A stretch of digits starting at `i` lies within the run there. */
  lemma {:induction false} DigitRunCovers(t: string, i: nat, j: nat)
    requires i <= j <= |t| && DigitsIn(t, i, j)
    ensures j <= i + DigitRun(t, i)
    decreases j - i
  {
    if i < j {
      DigitRunCovers(t, i + 1, j);
    }
  }

  /** The non-digit run at `i` is `[i, j)` when `[i, j)` has no digit and
      `j` ends it. */
  lemma {:induction false} NonDigitRunOfSpan(t: string, i: nat, j: nat)
    requires i <= j <= |t| && NoDigitIn(t, i, j)
    requires j == |t| || IsDigit(t[j])
    ensures NonDigitRun(t, i) == j - i
    decreases j - i
  {
    if i < j {
      NonDigitRunOfSpan(t, i + 1, j);
    }
  }

  /** A word with no character of class `space` occurs in the trim of `s`
      exactly when it occurs in `s`: trimming only removes characters of
      the class from the ends. */
  lemma ContainsTrimmed(space: char -> bool, s: string, w: string)
    requires w != [] && forall j :: 0 <= j < |w| ==> !space(w[j])
    ensures Contains(TrimBy(space, s), w) <==> Contains(s, w)
  {
    var r := TrimBy(space, s);
    var lo: nat, hi: nat :| TrimAt(space, s, lo, hi, r);
    if Contains(r, w) {
      var i: nat :| i <= |r| && OccursAt(r, w, i);
      OccursInSlice(s, lo, hi, w, i);
    }
    if Contains(s, w) {
      var i: nat :| i <= |s| && OccursAt(s, w, i);
      assert s[i] == w[0] && s[i + |w| - 1] == w[|w| - 1];
      SliceHasOccurrence(s, lo, hi, w, i);
    }
  }

  lemma OccursInSlice(s: string, lo: nat, hi: nat, w: string, i: nat)
    requires lo <= hi <= |s| && OccursAt(s[lo..hi], w, i)
    ensures OccursAt(s, w, lo + i)
  {
    forall k | 0 <= k < |w| ensures s[lo + i + k] == w[k] {
      assert s[lo..hi][i..i + |w|][k] == w[k];
    }
    assert s[lo + i..lo + i + |w|] == w;
  }

  lemma SliceHasOccurrence(s: string, lo: nat, hi: nat, w: string, i: nat)
    requires lo <= i && i + |w| <= hi <= |s| && OccursAt(s, w, i)
    ensures OccursAt(s[lo..hi], w, i - lo)
  {
    forall k | 0 <= k < |w| ensures s[lo..hi][i - lo + k] == w[k] {
      assert s[i..i + |w|][k] == w[k];
    }
    assert s[lo..hi][i - lo..i - lo + |w|] == w;
  }
}
