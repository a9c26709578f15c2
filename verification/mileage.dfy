/** `extractMileage` of the two-odometer page (MilesCheckTyphoon): unwrap a
    JSON `natural_text`, then try the anchored pattern, then the standalone
    five-or-six-digit pattern, and give up with `null`. */
module Mileage {
  import opened Wrappers
  import opened Chars
  import OdoPattern
  import StandalonePattern

  /** What `JSON.parse` makes of a text, as far as the page looks at it: not
      JSON at all (it throws), or a JSON value whose `natural_text` is a
      string or is missing (`None`). */
  datatype JsonParse = NotJson | Json(naturalText: Option<string>)

  /** `JSON.parse`, left abstract. */
  type JsonOracle = string -> JsonParse

  /** `parsed?.natural_text || text`: a non-empty `natural_text` replaces
      the text; anything else, a parse failure included, keeps it. */
  function WorkingText(parse: JsonOracle, text: string): (r: string)
    ensures r != text ==> parse(text) == Json(Some(r)) && r != ""
    ensures parse(text) == Json(Some(r)) || r == text
    ensures parse(text).Json? && parse(text).naturalText.Some? && parse(text).naturalText.value != "" ==>
              r == parse(text).naturalText.value
  {
    match parse(text)
    case Json(Some(v)) => if v != "" then v else text
    case _ => text
  }

  /** The two patterns of `extractMileage`, tried in order on `w`. */
  function ExtractFromText(w: string): (r: Option<string>)
    ensures r.Some? ==> AllDigits(r.value) && 4 <= |r.value| <= 6
    ensures forall m :: OdoPattern.IsFirstMatch(w, m) ==> r == Some(w[m.gapEnd..m.end])
    ensures !OdoPattern.HasMatch(w) ==>
              forall m :: StandalonePattern.IsFirstRun(w, m) ==> r == Some(w[m.start..m.end])
    ensures !OdoPattern.HasMatch(w) && r.Some? ==> 5 <= |r.value|
    ensures r.None? <==> !OdoPattern.HasMatch(w) && !StandalonePattern.HasRun(w)
  {
    OdoPattern.FindAnchoredFindsFirst(w);
    StandalonePattern.FindStandaloneFindsFirst(w);
    match OdoPattern.FindAnchored(w)
    case Some(m) => Some(w[m.gapEnd..m.end])
    case None =>
      match StandalonePattern.FindStandalone(w)
      case Some(run) => Some(w[run.start..run.end])
      case None => None
  }

  /** `extractMileage(text)` with `JSON.parse` given as `parse`. */
  function ExtractMileage(parse: JsonOracle, text: string): (r: Option<string>)
    ensures parse(text).Json? && parse(text).naturalText.Some? && parse(text).naturalText.value != "" ==>
              r == ExtractFromText(parse(text).naturalText.value)
    ensures parse(text).NotJson? || parse(text).naturalText.None? || parse(text).naturalText.value == "" ==>
              r == ExtractFromText(text)
  {
    ExtractFromText(WorkingText(parse, text))
  }

  /** An anchor anywhere in the text decides the result, whatever digit runs
      come before it: the capture of a match starting no later is returned. */
  lemma AnchorTakesPrecedence(w: string, s: nat, a: OdoPattern.Anchor, g: nat, e: nat)
    requires OdoPattern.IsMatch(w, s, a, g, e)
    ensures exists m :: OdoPattern.IsFirstMatch(w, m) && m.start <= s
                        && ExtractFromText(w) == Some(w[m.gapEnd..m.end])
  {
    var m := OdoPattern.FindAnchored(w).value;
    assert !OdoPattern.NoMatchAt(w, s);
  }

  /** Text that opens with `ODO` in any letter case, then at most ten code
      units without a digit, then four or more digits, yields the first six
      of those digits (all of them when there are fewer). */
  lemma LeadingOdoCaptured(kw: string, gap: string, ds: string, post: string)
    requires |kw| == 3 && forall j :: 0 <= j < 3 ==> LowerAscii(kw[j]) == "odo"[j]
    requires (forall k :: 0 <= k < |gap| ==> !IsDigit(gap[k])) && Utf16Length(gap) <= 10
    requires AllDigits(ds) && |ds| >= 4
    requires post == [] || !IsDigit(post[0])
    ensures ExtractFromText(kw + gap + ds + post) == Some(ds[..OdoPattern.Min(6, |ds|)])
  {
    var t := kw + gap + ds + post;
    var g := 3 + |gap|;
    var e := g + OdoPattern.Min(6, |ds|);
    LeadingOdoMatches(kw, gap, ds, post);
    ExtractAtLeadingOdo(t, g, e);
    CapturedDigits(kw, gap, ds, post, OdoPattern.Min(6, |ds|));
  }

  /** A seven-digit run after the anchor is cut to its first six digits. */
  lemma LongReadingTruncated()
    ensures ExtractFromText("ODO 1234567") == Some("123456")
  {
    assert "ODO 1234567" == "ODO" + " " + "1234567" + "";
    assert forall j :: 0 <= j < 3 ==> LowerAscii("ODO"[j]) == "odo"[j];
    assert Utf16Length(" ") == 1;
    LeadingOdoCaptured("ODO", " ", "1234567", "");
    assert "1234567"[..OdoPattern.Min(6, 7)] == "123456";
  }

  lemma ExtractAtLeadingOdo(t: string, g: nat, e: nat)
    requires OdoPattern.IsMatch(t, 0, OdoPattern.Odo, g, e)
    ensures var e' := g + OdoPattern.Min(6, DigitRun(t, g));
            e' <= |t| && ExtractFromText(t) == Some(t[g..e'])
  {
    OdoPattern.MatchAtStart(t, g, e);
  }

  lemma CapturedDigits(kw: string, gap: string, ds: string, post: string, n: nat)
    requires n <= |ds|
    ensures var t := kw + gap + ds + post;
            var g := |kw| + |gap|;
            t[g..g + n] == ds[..n]
  {
    var t := kw + gap + ds + post;
    var g := |kw| + |gap|;
    forall k | 0 <= k < n ensures t[g..g + n][k] == ds[..n][k] {
      assert t[g + k] == ds[k];
    }
  }

  lemma LeadingOdoMatches(kw: string, gap: string, ds: string, post: string)
    requires |kw| == 3 && forall j :: 0 <= j < 3 ==> LowerAscii(kw[j]) == "odo"[j]
    requires (forall k :: 0 <= k < |gap| ==> !IsDigit(gap[k])) && Utf16Length(gap) <= 10
    requires AllDigits(ds) && |ds| >= 4
    requires post == [] || !IsDigit(post[0])
    ensures var t := kw + gap + ds + post;
            var g := 3 + |gap|;
            && OdoPattern.IsMatch(t, 0, OdoPattern.Odo, g, g + OdoPattern.Min(6, |ds|))
            && DigitRun(t, g) == |ds|
  {
    var t := kw + gap + ds + post;
    var g := 3 + |gap|;
    KeywordPart(kw, gap, ds, post);
    GapPart(kw, gap, ds, post);
    DigitPart(kw, gap, ds, post);
    DigitRunOfSpan(t, g, g + |ds|);
  }

  lemma KeywordPart(kw: string, gap: string, ds: string, post: string)
    requires |kw| == 3 && forall j :: 0 <= j < 3 ==> LowerAscii(kw[j]) == "odo"[j]
    ensures OdoPattern.KeywordAt(kw + gap + ds + post, 0, OdoPattern.Odo)
  {
    var t := kw + gap + ds + post;
    forall j | 0 <= j < 3 ensures LowerAscii(t[j]) == "odo"[j] { assert t[j] == kw[j]; }
  }

  lemma GapPart(kw: string, gap: string, ds: string, post: string)
    requires |kw| == 3
    requires (forall k :: 0 <= k < |gap| ==> !IsDigit(gap[k])) && Utf16Length(gap) <= 10
    ensures var t := kw + gap + ds + post;
            NoDigitIn(t, 3, 3 + |gap|) && Utf16Length(t[3..3 + |gap|]) <= 10
  {
    var t := kw + gap + ds + post;
    assert t[3..3 + |gap|] == gap;
    forall k | 3 <= k < 3 + |gap| ensures !IsDigit(t[k]) { assert t[k] == gap[k - 3]; }
  }

  lemma DigitPart(kw: string, gap: string, ds: string, post: string)
    requires AllDigits(ds)
    requires post == [] || !IsDigit(post[0])
    ensures var t := kw + gap + ds + post;
            var g := |kw| + |gap|;
            DigitsIn(t, g, g + |ds|) && (g + |ds| == |t| || !IsDigit(t[g + |ds|]))
  {
    var t := kw + gap + ds + post;
    var g := |kw| + |gap|;
    forall k | g <= k < g + |ds| ensures IsDigit(t[k]) { assert t[k] == ds[k - g]; }
    if g + |ds| < |t| { assert t[g + |ds|] == post[0]; }
  }
}
