/** The fallback pattern `/\b\d{5,6}\b/` of `extractMileage`: the leftmost run
    of five or six digits with a word boundary on both sides. Without the `u`
    flag `\b` looks only at ASCII word characters, so Thai letters, spaces and
    punctuation all count as boundaries. */
module StandalonePattern {
  import opened Wrappers
  import opened Chars

  /** `\b` holds at index `i`: exactly one of the characters on either side
      is a word character, the outside of the text counting as non-word. */
  predicate IsBoundary(t: string, i: nat)
    requires i <= |t|
  {
    (i > 0 && IsWordChar(t[i - 1])) != (i < |t| && IsWordChar(t[i]))
  }

  /** One way for the pattern to match: the digits `[s, e)`. */
  ghost predicate IsRunMatch(t: string, s: nat, e: nat) {
    && s <= e <= |t|
    && 5 <= e - s <= 6
    && DigitsIn(t, s, e)
    && IsBoundary(t, s)
    && IsBoundary(t, e)
  }

  ghost predicate NoRunAt(t: string, s: nat) {
    forall e: nat :: !IsRunMatch(t, s, e)
  }

  ghost predicate NoRunIn(t: string, lo: nat, hi: nat) {
    forall s: nat :: lo <= s < hi ==> NoRunAt(t, s)
  }

  ghost predicate HasRun(t: string) {
    exists s: nat, e: nat :: IsRunMatch(t, s, e)
  }

  /** A match of the fallback pattern, `[start, end)`. */
  datatype Run = Run(start: nat, end: nat)

  /** The match `String.prototype.match` reports: no match starts earlier,
      and of the matches at its start it is the longest (greedy `{5,6}`). */
  ghost predicate IsFirstRun(t: string, m: Run) {
    && IsRunMatch(t, m.start, m.end)
    && NoRunIn(t, 0, m.start)
    && forall e: nat :: IsRunMatch(t, m.start, e) ==> e <= m.end
  }

  /** A match covers a whole digit run: it starts where the run starts and
      ends where the run ends, since digits are word characters. */
  lemma RunShape(t: string, s: nat, e: nat)
    requires IsRunMatch(t, s, e)
    ensures e == s + DigitRun(t, s)
    ensures s == 0 || !IsWordChar(t[s - 1])
    ensures e == |t| || !IsWordChar(t[e])
  {
    assert IsWordChar(t[s]) && IsWordChar(t[e - 1]);
  }

  /** The match at `s`, if there is one. */
  function RunAt(t: string, s: nat): (r: Option<Run>)
    requires s <= |t|
    ensures r.Some? ==> r.value.start == s && IsRunMatch(t, s, r.value.end)
                        && forall e: nat :: IsRunMatch(t, s, e) ==> e == r.value.end
    ensures r.None? ==> NoRunAt(t, s)
  {
    var n := DigitRun(t, s);
    assert forall e: nat :: IsRunMatch(t, s, e) ==> e == s + n by {
      forall e: nat | IsRunMatch(t, s, e) ensures e == s + n {
        RunShape(t, s, e);
      }
    }
    if 5 <= n <= 6 && IsBoundary(t, s) && IsBoundary(t, s + n) then Some(Run(s, s + n))
    else None
  }

  /** The leftmost match starting at or after `s`. */
  function FirstRunFrom(t: string, s: nat): (r: Option<Run>)
    requires s <= |t|
    ensures r.Some? ==> s <= r.value.start && IsRunMatch(t, r.value.start, r.value.end)
                        && NoRunIn(t, s, r.value.start)
                        && forall e: nat :: IsRunMatch(t, r.value.start, e) ==> e == r.value.end
    ensures r.None? ==> NoRunIn(t, s, |t| + 1)
    decreases |t| - s
  {
    var here := RunAt(t, s);
    if here.Some? then here
    else if s == |t| then
      NoRunInExtend(t, s, s + 1);
      None
    else
      var r := FirstRunFrom(t, s + 1);
      NoRunInExtend(t, s, if r.Some? then r.value.start else |t| + 1);
      r
  }

  lemma NoRunInExtend(t: string, s: nat, hi: nat)
    requires s < hi && NoRunAt(t, s) && NoRunIn(t, s + 1, hi)
    ensures NoRunIn(t, s, hi)
  {
  }

  /** `text.match(/\b\d{5,6}\b/)`: the reported match, or `None` for `null`. */
  function FindStandalone(t: string): (r: Option<Run>)
    ensures r.Some? ==> IsFirstRun(t, r.value)
    ensures r.None? <==> !HasRun(t)
  {
    var r := FirstRunFrom(t, 0);
    if r.None? then
      assert !HasRun(t) by {
        forall s: nat, e: nat ensures !IsRunMatch(t, s, e) {
          if s <= |t| { assert NoRunAt(t, s); }
        }
      }
      r
    else
      r
  }

  /** A run of seven or more digits is never matched, not even in part: no
      match shares a character with it. */
  lemma LongRunNeverMatches(t: string, i: nat, j: nat)
    requires i <= j <= |t| && DigitsIn(t, i, j) && j - i >= 7
    requires i == 0 || !IsDigit(t[i - 1])
    requires j == |t| || !IsDigit(t[j])
    ensures forall s: nat, e: nat :: IsRunMatch(t, s, e) ==> e <= i || j <= s
  {
    DigitRunOfSpan(t, i, j);
    forall s: nat, e: nat | IsRunMatch(t, s, e) ensures e <= i || j <= s {
      RunShape(t, s, e);
    }
  }

  /** A digit run with a Latin letter or `_` glued to either end is never
      matched, not even in part. */
  lemma GluedRunNeverMatches(t: string, i: nat, j: nat)
    requires i < j <= |t| && DigitsIn(t, i, j)
    requires (i > 0 && IsWordChar(t[i - 1]) && !IsDigit(t[i - 1]))
             || (j < |t| && IsWordChar(t[j]) && !IsDigit(t[j]))
    ensures forall s: nat, e: nat :: IsRunMatch(t, s, e) ==> e <= i || j <= s
  {
    forall s: nat, e: nat | IsRunMatch(t, s, e) ensures e <= i || j <= s {
      RunShape(t, s, e);
    }
  }

  /** Text whose only digits are one run of five or six, with no Latin letter
      or `_` touching it (Thai letters may), yields exactly that run. */
  lemma SoleRunFound(before: string, digits: string, after: string)
    requires 5 <= |digits| <= 6 && AllDigits(digits)
    requires forall k :: 0 <= k < |before| ==> !IsDigit(before[k])
    requires forall k :: 0 <= k < |after| ==> !IsDigit(after[k])
    requires before == [] || !IsWordChar(before[|before| - 1])
    requires after == [] || !IsWordChar(after[0])
    ensures FindStandalone(before + digits + after) == Some(Run(|before|, |before| + |digits|))
  {
    SoleRunMatches(before, digits, after);
    FoundWhereFirst(before + digits + after, |before|, |before| + |digits|);
  }

  /** A match with nothing matching before it and its whole digit run
      inside it is the one reported. */
  lemma FoundWhereFirst(t: string, i: nat, j: nat)
    requires IsRunMatch(t, i, j) && DigitRun(t, i) == j - i && NoRunIn(t, 0, i)
    ensures FindStandalone(t) == Some(Run(i, j))
  {
    forall e: nat | IsRunMatch(t, i, e) ensures e <= j {
      RunShape(t, i, e);
    }
    assert IsFirstRun(t, Run(i, j));
    FindStandaloneFindsFirst(t);
  }

  /** The pieces of `SoleRunFound`: the digits match, they form the whole
      digit run there, and nothing matches before them. */
  lemma SoleRunMatches(before: string, digits: string, after: string)
    requires 5 <= |digits| <= 6 && AllDigits(digits)
    requires forall k :: 0 <= k < |before| ==> !IsDigit(before[k])
    requires forall k :: 0 <= k < |after| ==> !IsDigit(after[k])
    requires before == [] || !IsWordChar(before[|before| - 1])
    requires after == [] || !IsWordChar(after[0])
    ensures var t := before + digits + after;
            && IsRunMatch(t, |before|, |before| + |digits|)
            && DigitRun(t, |before|) == |digits|
            && NoRunIn(t, 0, |before|)
  {
    var t := before + digits + after;
    var i, j := |before|, |before| + |digits|;
    assert DigitsIn(t, i, j) by {
      forall k | i <= k < j ensures IsDigit(t[k]) { assert t[k] == digits[k - i]; }
    }
    assert j == |t| || !IsDigit(t[j]) by {
      if j < |t| { assert t[j] == after[0]; }
    }
    DigitRunOfSpan(t, i, j);
    assert IsBoundary(t, i) by {
      if i > 0 { assert t[i - 1] == before[|before| - 1]; }
    }
    assert IsBoundary(t, j) by {
      if j < |t| { assert t[j] == after[0]; }
    }
    forall s: nat | 0 <= s < i ensures NoRunAt(t, s) {
      assert t[s] == before[s];
    }
  }


  /** Two matches that both satisfy `IsFirstRun` are the same. */
  lemma FirstRunUnique(t: string, m: Run, m': Run)
    requires IsFirstRun(t, m) && IsFirstRun(t, m')
    ensures m == m'
  {
    assert !NoRunAt(t, m.start) && !NoRunAt(t, m'.start);
  }

  /** Whatever match satisfies `IsFirstRun` is the one `FindStandalone`
      returns, and it is five or six digits. */
  lemma FindStandaloneFindsFirst(t: string)
    ensures forall m :: IsFirstRun(t, m) ==> FindStandalone(t) == Some(m)
    ensures FindStandalone(t).Some? ==>
              var m := FindStandalone(t).value;
              m.end <= |t| && AllDigits(t[m.start..m.end]) && 5 <= m.end - m.start <= 6
  {
    forall m | IsFirstRun(t, m) ensures FindStandalone(t) == Some(m) {
      FirstRunUnique(t, FindStandalone(t).value, m);
    }
  }
}
