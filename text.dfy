/** Numbers as text, the way the pages turn them into strings and back:
    digits in a radix, `${n}` for an integer (`Number.prototype.toString`),
    and `parseInt(s, radix)`. */
module Text {
  import opened Basics

  /** The value of `c` as a digit of `radix`: `0`-`9`, then the ASCII letters
      in either case for 10..35; `None` when `c` is not such a digit. */
  function DigitOf(c: char, radix: nat): (d: Option<nat>)
    ensures d.Some? ==> d.value < radix
  {
    var v := if '0' <= c <= '9' then c as int - '0' as int
             else if 'a' <= c <= 'z' then c as int - 'a' as int + 10
             else if 'A' <= c <= 'Z' then c as int - 'A' as int + 10
             else 36;
    if v < radix then Some(v) else None
  }

  predicate IsDigitIn(c: char, radix: nat) {
    DigitOf(c, radix).Some?
  }

  predicate AllDigits(s: string, radix: nat) {
    forall i :: 0 <= i < |s| ==> IsDigitIn(s[i], radix)
  }

  /** The digit character for `d` (upper-case letters above 9). */
  function DigitChar(d: nat): (c: char)
    requires d < 36
    ensures forall radix: nat :: d < radix ==> DigitOf(c, radix) == Some(d)
  {
    if d < 10 then ('0' as int + d) as char else ('A' as int + d - 10) as char
  }

  function Pow(b: nat, e: nat): nat {
    if e == 0 then 1 else b * Pow(b, e - 1)
  }

  /** One more low digit stays below the next power of the radix. */
  lemma ShiftBound(high: nat, d: nat, radix: nat, n: nat)
    requires high < Pow(radix, n) && d < radix
    ensures 0 <= high * radix + d < Pow(radix, n + 1)
  {
    var p := Pow(radix, n);
    assert Pow(radix, n + 1) == radix * p;
    assert high * radix <= (p - 1) * radix;
  }

  lemma DivModParts(n: nat, radix: nat)
    requires 2 <= radix <= n
    ensures n / radix >= 1 && n / radix < n && n % radix < radix
    ensures (n / radix) * radix + n % radix == n
  {
  }

  lemma AllDigitsPrefix(s: string, k: nat, radix: nat)
    requires AllDigits(s, radix) && k <= |s|
    ensures AllDigits(s[..k], radix)
  {
    forall i | 0 <= i < k ensures IsDigitIn(s[..k][i], radix) {
      assert s[..k][i] == s[i];
    }
  }

  /** Length of the longest prefix of `s` made of digits of `radix`. */
  function DigitRun(s: string, radix: nat): (k: nat)
    ensures k <= |s|
    ensures forall i :: 0 <= i < k ==> IsDigitIn(s[i], radix)
    ensures k < |s| ==> !IsDigitIn(s[k], radix)
  {
    if |s| > 0 && IsDigitIn(s[0], radix) then 1 + DigitRun(s[1..], radix) else 0
  }

  /** The number a string of digits denotes, most significant digit first. */
  function ValueOf(s: string, radix: nat): (v: nat)
    requires AllDigits(s, radix)
    ensures v < Pow(radix, |s|)
  {
    if s == [] then 0
    else
      var init := s[..|s| - 1];
      AllDigitsPrefix(s, |s| - 1, radix);
      var d := DigitOf(s[|s| - 1], radix).value;
      var high := ValueOf(init, radix);
      ShiftBound(high, d, radix, |init|);
      high * radix + d
  }

  lemma ValueOfSnoc(s: string, c: char, radix: nat)
    requires AllDigits(s, radix) && IsDigitIn(c, radix)
    ensures AllDigits(s + [c], radix)
    ensures ValueOf(s + [c], radix) == ValueOf(s, radix) * radix + DigitOf(c, radix).value
  {
    assert (s + [c])[..|s|] == s;
  }

  /** `n.toString(radix)` for a non-negative integer: the shortest digit
      string, with no leading zero, that denotes `n`. */
  function FormatNat(n: nat, radix: nat): (s: string)
    requires 2 <= radix <= 36
    ensures |s| > 0 && AllDigits(s, radix)
    ensures ValueOf(s, radix) == n
    ensures |s| > 1 ==> DigitOf(s[0], radix) != Some(0)
    decreases n
  {
    if n < radix then [DigitChar(n)]
    else
      var q, m := n / radix, n % radix;
      DivModParts(n, radix);
      var high := FormatNat(q, radix);
      var c := DigitChar(m);
      ValueOfSnoc(high, c, radix);
      assert (high + [c])[0] == high[0];
      assert |high| == 1 ==> DigitOf(high[0], radix) == Some(q);
      high + [c]
  }

  /** `${n}` for an integer `n`. */
  function DecimalString(n: int): (s: string)
    ensures n >= 0 ==> s == FormatNat(n, 10)
    ensures n < 0 ==> s == "-" + FormatNat(-n, 10)
  {
    if n < 0 then "-" + FormatNat(-n, 10) else FormatNat(n, 10)
  }

  /** `parseInt(s, radix)` for a radix in 2..36: an optional sign, for radix 16
      an optional `0x`/`0X`, then the longest run of digits; `None` (NaN)
      when that run is empty. Leading white space is not modelled. */
  function ParseInt(s: string, radix: nat): (r: Option<int>)
    requires 2 <= radix <= 36
    ensures |s| > 0 && AllDigits(s, radix) ==> r == Some(ValueOf(s, radix))
  {
    var neg := |s| > 0 && s[0] == '-';
    var unsigned := if |s| > 0 && (s[0] == '-' || s[0] == '+') then s[1..] else s;
    var body := if radix == 16 && |unsigned| >= 2 && unsigned[0] == '0' && (unsigned[1] == 'x' || unsigned[1] == 'X')
                then unsigned[2..] else unsigned;
    var k := DigitRun(body, radix);
    assert |s| > 0 && AllDigits(s, radix) ==> body == s && k == |s| && body[..k] == s by {
      if |s| > 0 && AllDigits(s, radix) {
        assert IsDigitIn(s[0], radix);
        assert |s| >= 2 ==> IsDigitIn(s[1], radix);
      }
    }
    if k == 0 then None
    else
      var v: int := ValueOf(body[..k], radix);
      Some(if neg then -v else v)
  }
}
