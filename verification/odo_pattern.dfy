/** The anchored pattern `/(ODO|odometer)[^\d]{0,10}(\d{4,6})/i` of
    `extractMileage`, as JavaScript's backtracking matcher runs it: the
    leftmost start wins, at a start `ODO` is tried before `odometer`, and the
    greedy quantifiers prefer the longest gap and then the longest digit run. */
module OdoPattern {
  import opened Wrappers
  import opened Chars

  datatype Anchor = Odo | Odometer

  /** The lower-case spelling of an alternative of `(ODO|odometer)`. */
  function Keyword(a: Anchor): string {
    match a
    case Odo => "odo"
    case Odometer => "odometer"
  }

  /** `Keyword(a)` occurs at `s` in `t`, ASCII case ignored. */
  predicate KeywordAt(t: string, s: nat, a: Anchor) {
    var k := Keyword(a);
    s + |k| <= |t| && forall j :: 0 <= j < |k| ==> LowerAscii(t[s + j]) == k[j]
  }

  /** One way for the pattern to match `t`: alternative `a` at `s`, the gap
      `[^\d]{0,10}` up to `g` (its bound counts UTF-16 code units), and the
      captured `\d{4,6}` spanning `[g, e)`. */
  ghost predicate IsMatch(t: string, s: nat, a: Anchor, g: nat, e: nat) {
    && KeywordAt(t, s, a)
    && s + |Keyword(a)| <= g <= e <= |t|
    && NoDigitIn(t, s + |Keyword(a)|, g)
    && Utf16Length(t[s + |Keyword(a)|..g]) <= 10
    && 4 <= e - g <= 6
    && DigitsIn(t, g, e)
  }

  ghost predicate HasMatch(t: string) {
    exists s: nat, a: Anchor, g: nat, e: nat :: IsMatch(t, s, a, g, e)
  }

  /** A match: where it starts, which alternative matched, where the gap ends
      and where the captured digits end. */
  datatype Match = Match(start: nat, anchor: Anchor, gapEnd: nat, end: nat)

  /** No way of matching starts at `s`. */
  ghost predicate NoMatchAt(t: string, s: nat) {
    forall a: Anchor, g: nat, e: nat :: !IsMatch(t, s, a, g, e)
  }

  /** No way of matching starts in `[lo, hi)`. */
  ghost predicate NoMatchIn(t: string, lo: nat, hi: nat) {
    forall s: nat :: lo <= s < hi ==> NoMatchAt(t, s)
  }

  /** `m` is the match the backtracking matcher settles on at its start: it
      matches; `ODO` could not match there if `odometer` did; and among the
      ways the chosen alternative can match there it has the longest gap,
      then the longest digit run. */
  ghost predicate IsPreferredAt(t: string, m: Match) {
    && IsMatch(t, m.start, m.anchor, m.gapEnd, m.end)
    && (m.anchor == Odometer ==> forall g: nat, e: nat :: !IsMatch(t, m.start, Odo, g, e))
    && (forall g: nat, e: nat :: IsMatch(t, m.start, m.anchor, g, e) ==>
          g < m.gapEnd || (g == m.gapEnd && e <= m.end))
  }

  /** The match `String.prototype.match` reports: the preferred match at the
      leftmost start where any match exists. */
  ghost predicate IsFirstMatch(t: string, m: Match) {
    IsPreferredAt(t, m) && NoMatchIn(t, 0, m.start)
  }

  /** The second capture group of a match. */
  function Captured(t: string, m: Match): string
    requires m.gapEnd <= m.end <= |t|
  {
    t[m.gapEnd..m.end]
  }

  function Min(a: int, b: int): int {
    if a <= b then a else b
  }

  /** Every way to match at `s` with `a` has the same gap: the whole stretch
      of non-digits after the keyword, since the gap may hold no digit and
      the capture must begin with one. Its digits lie in the run there. */
  lemma MatchShape(t: string, s: nat, a: Anchor, g: nat, e: nat)
    requires IsMatch(t, s, a, g, e)
    ensures g == s + |Keyword(a)| + NonDigitRun(t, s + |Keyword(a)|)
    ensures e <= g + DigitRun(t, g)
  {
    assert IsDigit(t[g]);
    NonDigitRunOfSpan(t, s + |Keyword(a)|, g);
    DigitRunCovers(t, g, e);
  }

  /** The match alternative `a` yields at `s`, if it yields one. */
  function MatchWith(t: string, s: nat, a: Anchor): (r: Option<Match>)
    requires s <= |t|
    ensures r.Some? ==> r.value.start == s && r.value.anchor == a
                        && IsMatch(t, s, a, r.value.gapEnd, r.value.end)
    ensures r.Some? ==> forall g: nat, e: nat :: IsMatch(t, s, a, g, e) ==>
                          g == r.value.gapEnd && e <= r.value.end
    ensures r.None? ==> forall g: nat, e: nat :: !IsMatch(t, s, a, g, e)
  {
    if !KeywordAt(t, s, a) then None
    else
      var p := s + |Keyword(a)|;
      var g := p + NonDigitRun(t, p);
      var n := DigitRun(t, g);
      assert forall g': nat, e': nat :: IsMatch(t, s, a, g', e') ==> g' == g && e' <= g + n by {
        forall g': nat, e': nat | IsMatch(t, s, a, g', e') ensures g' == g && e' <= g + n {
          MatchShape(t, s, a, g', e');
        }
      }
      if Utf16Length(t[p..g]) <= 10 && n >= 4 then
        Some(Match(s, a, g, g + Min(n, 6)))
      else
        None
  }

  /** The match at `s`: `ODO` first, then `odometer`. */
  function MatchAt(t: string, s: nat): (r: Option<Match>)
    requires s <= |t|
    ensures r.Some? ==> r.value.start == s && IsPreferredAt(t, r.value)
    ensures r.None? ==> NoMatchAt(t, s)
  {
    var odo := MatchWith(t, s, Odo);
    if odo.Some? then odo else MatchWith(t, s, Odometer)
  }

  /** The leftmost match starting at or after `s`. */
  function FirstMatchFrom(t: string, s: nat): (r: Option<Match>)
    requires s <= |t|
    ensures r.Some? ==> s <= r.value.start && IsPreferredAt(t, r.value) && NoMatchIn(t, s, r.value.start)
    ensures r.None? ==> NoMatchIn(t, s, |t| + 1)
    decreases |t| - s
  {
    var here := MatchAt(t, s);
    if here.Some? then here
    else if s == |t| then
      NoMatchInExtend(t, s, s + 1);
      None
    else
      var r := FirstMatchFrom(t, s + 1);
      NoMatchInExtend(t, s, if r.Some? then r.value.start else |t| + 1);
      r
  }

  lemma NoMatchInExtend(t: string, s: nat, hi: nat)
    requires s < hi && NoMatchAt(t, s) && NoMatchIn(t, s + 1, hi)
    ensures NoMatchIn(t, s, hi)
  {
  }

  /** A match never starts after the end of the text. */
  lemma NoMatchPastEnd(t: string, s: nat)
    requires s > |t|
    ensures NoMatchAt(t, s)
  {
  }

  /** `text.match(odoRegex)`: the reported match, or `None` for `null`. */
  function FindAnchored(t: string): (r: Option<Match>)
    ensures r.Some? ==> IsFirstMatch(t, r.value)
    ensures r.None? <==> !HasMatch(t)
  {
    var r := FirstMatchFrom(t, 0);
    if r.None? then
      assert !HasMatch(t) by {
        forall s: nat, a: Anchor, g: nat, e: nat ensures !IsMatch(t, s, a, g, e) {
          if s > |t| { NoMatchPastEnd(t, s); } else { assert NoMatchAt(t, s); }
        }
      }
      r
    else
      r
  }

  /** The backtracking matcher settles on one match: two matches that both
      satisfy `IsFirstMatch` are the same. */
  lemma FirstMatchUnique(t: string, m: Match, m': Match)
    requires IsFirstMatch(t, m) && IsFirstMatch(t, m')
    ensures m == m'
  {
    assert !NoMatchAt(t, m.start) && !NoMatchAt(t, m'.start);
  }

  /** The capture takes the first six digits of a longer run and the whole
      run otherwise: it ends after six digits or where the digits end. */
  lemma {:induction false} CaptureIsRunPrefix(t: string, m: Match)
    requires IsFirstMatch(t, m)
    ensures m.end - m.gapEnd == Min(6, DigitRun(t, m.gapEnd))
    ensures m.end - m.gapEnd == 6 || m.end == |t| || !IsDigit(t[m.end])
  {
    var g := m.gapEnd;
    var n := DigitRun(t, g);
    MatchShape(t, m.start, m.anchor, g, m.end);
    var e := g + Min(6, n);
    assert DigitsIn(t, g, e);
    assert IsMatch(t, m.start, m.anchor, g, e);
  }

  /** When `ODO` matches at the very start, that is the reported match, with
      the capture running to the end of the digits or six digits in. */
  lemma MatchAtStart(t: string, g: nat, e: nat)
    requires IsMatch(t, 0, Odo, g, e)
    ensures FindAnchored(t) == Some(Match(0, Odo, g, g + Min(6, DigitRun(t, g))))
  {
    var m := StartMatchChosen(t, g, e);
    CaptureIsRunPrefix(t, m);
  }

  /** The reported match of a text where `ODO` matches at the start begins
      there, with `ODO` and the same gap. */
  lemma StartMatchChosen(t: string, g: nat, e: nat) returns (m: Match)
    requires IsMatch(t, 0, Odo, g, e)
    ensures FindAnchored(t) == Some(m) && IsFirstMatch(t, m)
    ensures m.start == 0 && m.anchor == Odo && m.gapEnd == g
  {
    assert HasMatch(t);
    m := FindAnchored(t).value;
    assert m.start == 0 by { assert !NoMatchAt(t, 0); }
    MatchShape(t, 0, Odo, g, e);
    MatchShape(t, 0, Odo, m.gapEnd, m.end);
  }


  /** Whatever match satisfies `IsFirstMatch` is the one `FindAnchored`
      returns, and its capture is four to six digits. */
  lemma FindAnchoredFindsFirst(t: string)
    ensures forall m :: IsFirstMatch(t, m) ==> FindAnchored(t) == Some(m)
    ensures FindAnchored(t).Some? ==>
              var m := FindAnchored(t).value;
              m.end <= |t| && AllDigits(t[m.gapEnd..m.end]) && 4 <= m.end - m.gapEnd <= 6
  {
    forall m | IsFirstMatch(t, m) ensures FindAnchored(t) == Some(m) {
      FirstMatchUnique(t, FindAnchored(t).value, m);
    }
  }
}
