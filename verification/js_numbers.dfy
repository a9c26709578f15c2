/** JavaScript's global `parseInt(string)` (no radix argument) and the
    `toString()` of an integral Number, over exact integers. */
module JsNumbers {
  import opened Wrappers
  import opened Chars

  /** The value of `c` as a digit in base `radix` (10 or 16), if it is one. */
  function RadixDigit(c: char, radix: nat): (d: Option<nat>)
    requires radix == 10 || radix == 16
    ensures d.Some? ==> d.value < radix
    ensures radix == 10 ==> (d.Some? <==> IsDigit(c))
  {
    if IsDigit(c) then Some(c as int - '0' as int)
    else if radix == 16 && 'a' <= c <= 'f' then Some(c as int - 'a' as int + 10)
    else if radix == 16 && 'A' <= c <= 'F' then Some(c as int - 'A' as int + 10)
    else None
  }

  predicate IsRadixDigits(s: string, radix: nat)
    requires radix == 10 || radix == 16
  {
    forall i :: 0 <= i < |s| ==> RadixDigit(s[i], radix).Some?
  }

  /** Length of the longest prefix of `s` made of base-`radix` digits. */
  function RadixPrefixLength(s: string, radix: nat): (n: nat)
    requires radix == 10 || radix == 16
    ensures n <= |s| && IsRadixDigits(s[..n], radix)
    ensures n == |s| || RadixDigit(s[n], radix).None?
  {
    if s == [] || RadixDigit(s[0], radix).None? then 0
    else
      var n := 1 + RadixPrefixLength(s[1..], radix);
      assert s[..n] == [s[0]] + s[1..][..n - 1];
      n
  }

  /** The number a string of base-`radix` digits denotes, most significant first. */
  function DigitsValue(s: string, radix: nat): nat
    requires radix == 10 || radix == 16
    requires IsRadixDigits(s, radix)
  {
    if s == [] then 0
    else DigitsValue(s[..|s| - 1], radix) * radix + RadixDigit(s[|s| - 1], radix).value
  }

  /** The digits after the sign: base 16 after a `0x`/`0X` prefix, base 10
      otherwise, read up to the first character that is not a digit of that
      base; `None` when no digit is read. */
  function ParseMagnitude(u: string): (r: Option<nat>)
    ensures r.Some? ==> |u| > 0 && IsDigit(u[0])
  {
    var hex := |u| >= 2 && u[0] == '0' && (u[1] == 'x' || u[1] == 'X');
    var radix := if hex then 16 else 10;
    var v := if hex then u[2..] else u;
    var n := RadixPrefixLength(v, radix);
    if n == 0 then None
    else
      assert RadixDigit(v[0], radix).Some?;
      Some(DigitsValue(v[..n], radix))
  }

  /** `parseInt(s)`: skip leading white space, read an optional sign, then the
      magnitude; `None` stands for NaN. */
  function ParseInt(s: string): (r: Option<int>)
    ensures |s| > 0 && !IsJsSpace(s[0]) && s[0] != '+' && s[0] != '-' && !IsDigit(s[0]) ==> r.None?
    ensures r.Some? ==> var t := TrimStartBy(IsJsSpace, s);
                        |t| > 0 && (IsDigit(t[0]) || (|t| > 1 && (t[0] == '+' || t[0] == '-') && IsDigit(t[1])))
  {
    var t := TrimStartBy(IsJsSpace, s);
    var sign := if |t| > 0 && t[0] == '-' then -1 else 1;
    var u := if |t| > 0 && (t[0] == '-' || t[0] == '+') then t[1..] else t;
    match ParseMagnitude(u)
    case None => None
    case Some(m) => Some(sign * m)
  }

  /** Decimal digits of `n` without leading zeros: what `n.toString()` prints. */
  function NatToString(n: nat): (s: string)
    ensures |s| > 0 && AllDigits(s)
    ensures s[0] == '0' ==> n == 0 && |s| == 1
    ensures IsRadixDigits(s, 10) && DigitsValue(s, 10) == n
  {
    var d := ['0' + (n % 10) as char];
    if n < 10 then d
    else
      var p := NatToString(n / 10);
      var s := p + d;
      assert s[..|s| - 1] == p;
      s
  }

  /** `n.toString()` for an integral Number. */
  function IntToString(n: int): (s: string)
    ensures |s| > 0
  {
    if n < 0 then "-" + NatToString(-n) else NatToString(n)
  }

  /** `parseInt` reads back what `toString` prints. */
  lemma ParseIntToString(n: int)
    ensures ParseInt(IntToString(n)) == Some(n)
  {
    var s := IntToString(n);
    var digits := NatToString(if n < 0 then -n else n);
    assert !IsJsSpace(s[0]);
    assert TrimStartBy(IsJsSpace, s) == s;
    var u := if n < 0 then s[1..] else s;
    assert u == digits;
    assert RadixPrefixLength(u, 10) == |u|;
    assert u[..|u|] == u;
  }

  /** A string of decimal digits is read as the number it denotes, whatever
      non-digit text follows it, unless a lone `0` and an `x` form a hex prefix. */
  lemma ParseIntOfDigits(d: string, rest: string)
    requires |d| > 0 && AllDigits(d)
    requires rest == [] || !IsDigit(rest[0])
    requires !(d == "0" && |rest| > 0 && (rest[0] == 'x' || rest[0] == 'X'))
    ensures IsRadixDigits(d, 10)
    ensures ParseInt(d + rest) == Some(DigitsValue(d, 10))
  {
    assert (d + rest)[0] == d[0];
    UnsignedParse(d + rest);
    MagnitudeOfDigits(d, rest);
  }

  /** Text starting with a digit has neither white space nor a sign to skip. */
  lemma UnsignedParse(s: string)
    requires |s| > 0 && IsDigit(s[0])
    ensures ParseInt(s) == ParseMagnitude(s)
  {
    assert TrimStartBy(IsJsSpace, s) == s by {
      assert LeadingCount(IsJsSpace, s) == 0;
    }
  }

  lemma MagnitudeOfDigits(d: string, rest: string)
    requires |d| > 0 && AllDigits(d)
    requires rest == [] || !IsDigit(rest[0])
    requires !(d == "0" && |rest| > 0 && (rest[0] == 'x' || rest[0] == 'X'))
    ensures IsRadixDigits(d, 10)
    ensures ParseMagnitude(d + rest) == Some(DigitsValue(d, 10))
  {
    var s := d + rest;
    assert !(|s| >= 2 && s[0] == '0' && (s[1] == 'x' || s[1] == 'X')) by {
      if |d| >= 2 { assert s[1] == d[1]; }
    }
    assert IsRadixDigits(d, 10);
    PrefixLengthOfDigits(d, rest);
    assert s[..|d|] == d;
    assert ParseMagnitude(s) == Some(DigitsValue(s[..|d|], 10));
  }

  /** The decimal digit run at the front of `d + rest` is exactly `d`. */
  lemma {:induction false} PrefixLengthOfDigits(d: string, rest: string)
    requires AllDigits(d)
    requires rest == [] || !IsDigit(rest[0])
    ensures RadixPrefixLength(d + rest, 10) == |d|
  {
    if d != [] {
      assert (d + rest)[1..] == d[1..] + rest;
      PrefixLengthOfDigits(d[1..], rest);
    } else {
      assert d + rest == rest;
    }
  }
}
