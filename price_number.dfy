/** Python's `float()` applied to a cleaned price text (digits and dots only).
    The value is kept exact: a decimal is a natural mantissa and a scale, and
    stands for mantissa / 10^scale. */
module PriceNumber {
  import opened Wrappers
  import opened PriceText

  datatype Decimal = Decimal(mantissa: nat, scale: nat)

  function Pow10(k: nat): (r: nat)
    ensures r >= 1
  {
    if k == 0 then 1 else 10 * Pow10(k - 1)
  }

  /** The number a decimal stands for. */
  function Value(d: Decimal): real {
    d.mantissa as real / Pow10(d.scale) as real
  }

  predicate IsDigits(s: string) {
    forall i :: 0 <= i < |s| ==> IsDigit(s[i])
  }

  /** A digit string read in base ten; the empty string reads as zero. */
  function DigitsValue(s: string): (n: nat)
    requires IsDigits(s)
    ensures n < Pow10(|s|)
  {
    if s == [] then 0
    else DigitsValue(s[..|s| - 1]) * 10 + (s[|s| - 1] as int - '0' as int)
  }

  /** The position of the first dot. */
  function FirstDot(s: string): (i: nat)
    requires '.' in s
    ensures i < |s| && s[i] == '.' && '.' !in s[..i]
  {
    if s[0] == '.' then 0
    else
      assert s == [s[0]] + s[1..];
      var j := FirstDot(s[1..]);
      assert s[..j + 1] == [s[0]] + s[1..][..j];
      j + 1
  }

  /** `float(s)` on a text of digits and dots: an optional integer part, then
      optionally a dot and an optional fraction part, with at least one digit in
      all. Anything else raises `ValueError`, modelled as `None`. */
  function ParseFloat(s: string): Option<Decimal>
    requires IsPriceText(s)
  {
    if '.' !in s then
      NoDotDigits(s, 0, |s|);
      if s == [] then None else Some(Decimal(DigitsValue(s), 0))
    else
      var i := FirstDot(s);
      var whole, fraction := s[..i], s[i + 1..];
      if '.' in fraction || (whole == [] && fraction == []) then None
      else
        NoDotDigits(s, 0, i);
        NoDotDigits(s, i + 1, |s|);
        Some(Decimal(DigitsValue(whole) * Pow10(|fraction|) + DigitsValue(fraction), |fraction|))
  }

  /** A slice of a digit-and-dot text that holds no dot is a numeral. */
  lemma NoDotDigits(s: string, lo: nat, hi: nat)
    requires IsPriceText(s) && lo <= hi <= |s| && '.' !in s[lo..hi]
    ensures IsDigits(s[lo..hi])
  {
    forall i | 0 <= i < hi - lo
      ensures IsDigit(s[lo..hi][i])
    {
      assert s[lo..hi][i] == s[lo + i];
      assert s[lo + i] in s[lo..hi];
    }
  }

  predicate HasDigit(s: string) {
    exists i :: 0 <= i < |s| && IsDigit(s[i])
  }

  /** Removing the dots of a cleaned text leaves its digits. */
  lemma {:induction false} DigitsOfPriceText(s: string)
    requires IsPriceText(s)
    ensures IsDigits(RemoveAll(s, '.'))
    ensures |RemoveAll(s, '.')| > 0 <==> HasDigit(s)
  {
    if s != [] {
      DigitsOfPriceText(s[1..]);
      if s[0] == '.' {
        assert forall i :: 1 <= i < |s| ==> s[i] == s[1..][i - 1];
      } else {
        assert IsDigit(s[0]);
      }
      if HasDigit(s[1..]) {
        var i :| 0 <= i < |s[1..]| && IsDigit(s[1..][i]);
        assert IsDigit(s[i + 1]);
      }
    }
  }

  /** Reading a concatenation: the left part is shifted by the length of the right. */
  lemma {:induction false} DigitsValueConcat(a: string, b: string)
    requires IsDigits(a) && IsDigits(b)
    ensures IsDigits(a + b)
    ensures DigitsValue(a + b) == DigitsValue(a) * Pow10(|b|) + DigitsValue(b)
  {
    DigitsConcat(a, b);
    if b == [] {
      assert a + b == a;
    } else {
      var n := |b| - 1;
      var b' := b[..n];
      assert (a + b)[..|a + b| - 1] == a + b';
      assert (a + b)[|a + b| - 1] == b[n];
      DigitsValueConcat(a, b');
      var d := b[n] as int - '0' as int;
      ShiftByTen(DigitsValue(a), Pow10(n), DigitsValue(b'), d, DigitsValue(a + b), Pow10(|b|), DigitsValue(b));
    }
  }

  lemma DigitsConcat(a: string, b: string)
    requires IsDigits(a) && IsDigits(b)
    ensures IsDigits(a + b)
  {
    assert forall i :: 0 <= i < |a + b| ==> (a + b)[i] == if i < |a| then a[i] else b[i - |a|];
  }

  lemma ShiftByTen(x: int, p: int, y: int, d: int, total: int, p10: int, yd: int)
    requires total == (x * p + y) * 10 + d && p10 == p * 10 && yd == y * 10 + d
    ensures total == x * p10 + yd
  {
  }

  /** What the parse accepts, and the value it gives: it succeeds exactly when the
      text holds at least one digit and at most one dot; the mantissa is then the
      number its digits spell, and the scale the count of digits after the dot. */
  lemma ParseFloatSpec(s: string)
    requires IsPriceText(s)
    ensures ParseFloat(s).Some? <==> HasDigit(s) && multiset(s)['.'] <= 1
    ensures ParseFloat(s).Some? ==>
      && IsDigits(RemoveAll(s, '.'))
      && ParseFloat(s).value.mantissa == DigitsValue(RemoveAll(s, '.'))
    ensures ParseFloat(s).Some? && '.' !in s ==> ParseFloat(s).value.scale == 0
    ensures forall i :: 0 <= i < |s| && s[i] == '.' && ParseFloat(s).Some? ==>
      ParseFloat(s).value.scale == |s| - 1 - i
  {
    if '.' !in s {
      DigitsOfPriceText(s);
      RemoveAllAbsent(s, '.');
      assert multiset(s)['.'] == 0;
    } else {
      var i := FirstDot(s);
      DotCount(s, i);
      if '.' !in s[i + 1..] {
        ParseOneDot(s, i);
      }
    }
  }

  /** Counting dots from the first one on. */
  lemma DotCount(s: string, i: nat)
    requires i < |s| && s[i] == '.' && '.' !in s[..i]
    ensures multiset(s)['.'] == 1 + multiset(s[i + 1..])['.']
  {
    assert s == s[..i] + [s[i]] + s[i + 1..];
    assert multiset(s[..i])['.'] == 0;
  }

  /** The case of a single dot, at position `i`. */
  lemma ParseOneDot(s: string, i: nat)
    requires IsPriceText(s) && i < |s| && s[i] == '.'
    requires '.' !in s[..i] && '.' !in s[i + 1..]
    ensures FirstDot(s) == i
    ensures forall j :: 0 <= j < |s| && s[j] == '.' ==> j == i
    ensures ParseFloat(s).Some? <==> HasDigit(s)
    ensures ParseFloat(s).Some? ==>
      && IsDigits(RemoveAll(s, '.'))
      && ParseFloat(s).value == Decimal(DigitsValue(RemoveAll(s, '.')), |s| - 1 - i)
  {
    OnlyDot(s, i);
    FirstDotAt(s, i);
    RemoveDotsAround(s, i);
    DigitsOfPriceText(s);
    DigitsAround(s, i);
    DigitsValueConcat(s[..i], s[i + 1..]);
  }

  lemma FirstDotAt(s: string, i: nat)
    requires i < |s| && s[i] == '.' && '.' !in s[..i]
    ensures FirstDot(s) == i
  {
    var k := FirstDot(s);
    assert s[k] == '.';
  }

  lemma RemoveDotsAround(s: string, i: nat)
    requires i < |s| && s[i] == '.' && '.' !in s[..i] && '.' !in s[i + 1..]
    ensures RemoveAll(s, '.') == s[..i] + s[i + 1..]
  {
    var whole, fraction := s[..i], s[i + 1..];
    assert s == whole + ['.'] + fraction;
    RemoveAllAbsent(whole, '.');
    RemoveAllAbsent(fraction, '.');
    RemoveAllConcat(whole + ['.'], fraction, '.');
    RemoveAllConcat(whole, ['.'], '.');
  }

  lemma DigitsAround(s: string, i: nat)
    requires IsPriceText(s)
    requires i < |s| && '.' !in s[..i] && '.' !in s[i + 1..]
    ensures IsDigits(s[..i]) && IsDigits(s[i + 1..])
  {
    var whole, fraction := s[..i], s[i + 1..];
    assert IsPriceText(whole) && IsPriceText(fraction);
    RemoveAllAbsent(whole, '.');
    RemoveAllAbsent(fraction, '.');
    DigitsOfPriceText(whole);
    DigitsOfPriceText(fraction);
  }

  /** A dot that has no other dot before or after it is the only one. */
  lemma OnlyDot(s: string, i: nat)
    requires i < |s| && s[i] == '.' && '.' !in s[..i] && '.' !in s[i + 1..]
    ensures forall j :: 0 <= j < |s| && s[j] == '.' ==> j == i
  {
  }

  lemma {:induction false} RemoveAllAbsent(s: string, c: char)
    requires c !in s
    ensures RemoveAll(s, c) == s
  {
    if s != [] {
      RemoveAllAbsent(s[1..], c);
      assert s == [s[0]] + s[1..];
    }
  }

  /** A decimal is zero exactly when its mantissa is, and never negative. */
  lemma ValueSign(d: Decimal)
    ensures Value(d) >= 0.0
    ensures Value(d) == 0.0 <==> d.mantissa == 0
  {
    var p := Pow10(d.scale) as real;
    assert Value(d) * p == d.mantissa as real;
  }

  /** A decimal with no digits after the dot is its mantissa. */
  lemma ValueUnscaled(d: Decimal)
    requires d.scale == 0
    ensures Value(d) == d.mantissa as real
  {
    assert Pow10(0) == 1;
  }

  function DigitChar(n: nat): (c: char)
    requires n < 10
    ensures IsDigit(c) && c as int - '0' as int == n
  {
    ('0' as int + n) as char
  }

  /** The shortest decimal numeral of `n`. */
  function NatDigits(n: nat): (s: string)
    ensures IsDigits(s) && |s| >= 1
    ensures DigitsValue(s) == n
  {
    if n < 10 then [DigitChar(n)]
    else
      var s := NatDigits(n / 10) + [DigitChar(n % 10)];
      assert s[..|s| - 1] == NatDigits(n / 10);
      s
  }

  function Zeros(k: nat): (s: string)
    ensures |s| == k && IsDigits(s)
    ensures DigitsValue(s) == 0
  {
    if k == 0 then []
    else
      var s := Zeros(k - 1) + ['0'];
      assert s[..|s| - 1] == Zeros(k - 1);
      s
  }

  /** Leading zeros added until the numeral is at least `width` long; its value is unchanged. */
  function ZeroPad(s: string, width: nat): (r: string)
    requires IsDigits(s)
    ensures IsDigits(r) && |r| >= width && |r| >= |s|
    ensures DigitsValue(r) == DigitsValue(s)
  {
    if |s| >= width then s
    else
      DigitsValueConcat(Zeros(width - |s|), s);
      Zeros(width - |s|) + s
  }

  /** The text of a decimal: its digits, zero-padded so that at least one stands
      before the dot, and the dot `scale` places from the right (no dot when the
      scale is zero). */
  function Format(d: Decimal): (s: string)
    ensures IsPriceText(s)
  {
    var digits := ZeroPad(NatDigits(d.mantissa), d.scale + 1);
    if d.scale == 0 then digits
    else digits[..|digits| - d.scale] + "." + digits[|digits| - d.scale..]
  }

  /** Parsing a formatted decimal gives it back. */
  lemma ParseFormat(d: Decimal)
    ensures ParseFloat(Format(d)) == Some(d)
  {
    var digits := ZeroPad(NatDigits(d.mantissa), d.scale + 1);
    var m := |digits| - d.scale;
    var s := Format(d);
    if d.scale == 0 {
      assert s == digits;
      ParsePlain(digits);
    } else {
      assert s == digits[..m] + "." + digits[m..];
      ParseDotted(digits, m);
    }
    assert ParseFloat(s) == Some(Decimal(d.mantissa, d.scale));
  }

  /** A numeral without a dot parses to its value. */
  lemma ParsePlain(digits: string)
    requires IsDigits(digits) && digits != []
    ensures IsPriceText(digits)
    ensures ParseFloat(digits) == Some(Decimal(DigitsValue(digits), 0))
  {
    assert '.' !in digits;
  }

  /** A numeral with a dot inserted after its first `m` digits parses to that
      numeral's value, scaled by the number of digits after the dot. */
  lemma ParseDotted(digits: string, m: nat)
    requires IsDigits(digits) && 0 < m <= |digits|
    ensures IsPriceText(digits[..m] + "." + digits[m..])
    ensures ParseFloat(digits[..m] + "." + digits[m..]) == Some(Decimal(DigitsValue(digits), |digits| - m))
  {
    var s := digits[..m] + "." + digits[m..];
    DottedShape(digits, m);
    DottedDigits(digits, m);
    ParseOneDot(s, m);
  }

  /** Removing the inserted dot gives the numeral back. */
  lemma DottedDigits(digits: string, m: nat)
    requires IsDigits(digits) && 0 < m <= |digits|
    ensures var s := digits[..m] + "." + digits[m..];
      |s| == |digits| + 1 && RemoveAll(s, '.') == digits
  {
    var s := digits[..m] + "." + digits[m..];
    DottedShape(digits, m);
    RemoveDotsAround(s, m);
    assert digits[..m] + digits[m..] == digits;
  }

  lemma DottedShape(digits: string, m: nat)
    requires IsDigits(digits) && 0 < m <= |digits|
    ensures var s := digits[..m] + "." + digits[m..];
      && s[..m] == digits[..m] && s[m] == '.' && s[m + 1..] == digits[m..]
      && '.' !in s[..m] && '.' !in s[m + 1..]
      && IsPriceText(s) && HasDigit(s)
  {
    var s := digits[..m] + "." + digits[m..];
    forall i | 0 <= i < |s|
      ensures IsPriceChar(s[i])
    {
      if i < m {
        assert s[i] == digits[i];
      } else if i > m {
        assert s[i] == digits[i - 1];
      }
    }
    assert s[0] == digits[0];
    assert s[..m] == digits[..m] && s[m + 1..] == digits[m..];
  }
}
