/**
 * The parts of Python's integer built-ins that the finance core relies on:
 * `int()` applied to a quotient (it truncates toward zero, where Dafny's `/`
 * is Euclidean), `str()` of an integer, and `int()` applied to a string.
 */
module PyInt {
  import opened Wrappers

  /** `int(a / b)` for a positive divisor: the exact quotient truncated toward zero. */
  function TruncDiv(a: int, b: int): (q: int)
    requires b > 0
    ensures a >= 0 ==> 0 <= q && q * b <= a < (q + 1) * b
    ensures a < 0 ==> q <= 0 && -q * b <= -a < (-q + 1) * b
  {
    if a >= 0 then
      DivBounds(a, b);
      a / b
    else
      DivBounds(-a, b);
      -((-a) / b)
  }

  /** Euclidean division of a natural number brackets it between two multiples of the divisor. */
  lemma DivBounds(a: nat, b: int)
    requires b > 0
    ensures 0 <= a / b && (a / b) * b <= a < (a / b + 1) * b
  {
    var q, r := a / b, a % b;
    assert a == q * b + r && 0 <= r < b;
    assert (q + 1) * b == q * b + b;
  }

  lemma MulMonotone(x: int, y: int, t: int)
    requires x <= y && t > 0
    ensures x * t <= y * t
  {
  }

  /** `int(c / t * 100)` for a positive `t`, compared with the 100 percent mark. */
  lemma TruncPercent(c: int, t: int)
    requires t > 0
    ensures c >= t ==> TruncDiv(c * 100, t) >= 100
    ensures c < t ==> TruncDiv(c * 100, t) < 100
    ensures c * 100 >= t * 80 ==> TruncDiv(c * 100, t) >= 80
    ensures c * 100 < t * 80 ==> TruncDiv(c * 100, t) < 80
    ensures c < 0 ==> TruncDiv(c * 100, t) <= 0
  {
    var q := TruncDiv(c * 100, t);
    if c >= 0 {
      if q < 100 && c >= t {
        MulMonotone(q + 1, 100, t);
        MulMonotone(t, c, 100);
      }
      if q >= 100 && c < t {
        MulMonotone(100, q, t);
        MulMonotone(c, t, 100);
      }
      if q < 80 && c * 100 >= t * 80 {
        MulMonotone(q + 1, 80, t);
      }
      if q >= 80 && c * 100 < t * 80 {
        MulMonotone(80, q, t);
      }
    }
  }

  predicate IsAsciiDigit(c: char) {
    '0' <= c <= '9'
  }

  /** The ASCII digit for a value below ten. */
  function DigitChar(d: int): (c: char)
    requires 0 <= d < 10
    ensures IsAsciiDigit(c) && c as int - '0' as int == d
  {
    ('0' as int + d) as char
  }

  /** Decimal digits of a natural number, most significant first, without leading zeros. */
  function NatDigits(n: nat): (s: string)
    ensures |s| >= 1
    ensures forall i :: 0 <= i < |s| ==> IsAsciiDigit(s[i])
    ensures n > 0 ==> s[0] != '0'
    ensures n < 10 <==> |s| == 1
  {
    if n < 10 then [DigitChar(n)] else NatDigits(n / 10) + [DigitChar(n % 10)]
  }

  /** `str(n)` for an integer `n`. */
  function DecimalString(n: int): string {
    if n < 0 then "-" + NatDigits(-n) else NatDigits(n)
  }

  /** `str(n)`: a minus sign exactly for a negative `n`, then decimal digits without a leading zero. */
  lemma DecimalStringShape(n: int)
    ensures var r := DecimalString(n);
      && |r| > 0 && (r[0] == '-' <==> n < 0) && (n < 0 ==> |r| >= 2)
      && (forall i :: 0 <= i < |r| && (i > 0 || n >= 0) ==> IsAsciiDigit(r[i]))
      && (n != 0 ==> r[if n < 0 then 1 else 0] != '0')
      && (|r| == 1 ==> 0 <= n < 10)
  {
  }

  /** The whitespace that `int()` strips around its argument (the ASCII subset). */
  predicate IsSpace(c: char) {
    c == ' ' || c == '\t' || c == '\n' || c == '\r' || c == '\U{000B}' || c == '\U{000C}'
  }

  /**
   * The decimal digits `int()` accepts: ASCII, Arabic-Indic (U+0660..U+0669)
   * and Extended Arabic-Indic, the Persian digits (U+06F0..U+06F9).
   */
  predicate IsDecimalDigit(c: char) {
    '0' <= c <= '9' || '\U{0660}' <= c <= '\U{0669}' || '\U{06F0}' <= c <= '\U{06F9}'
  }

  function DigitValue(c: char): (d: nat)
    requires IsDecimalDigit(c)
    ensures d < 10
  {
    if '0' <= c <= '9' then c as int - '0' as int
    else if '\U{0660}' <= c <= '\U{0669}' then c as int - 0x0660
    else c as int - 0x06F0
  }

  predicate IsRunChar(c: char) {
    IsDecimalDigit(c) || c == '_'
  }

  /** A run of digits in which a single `_` may separate two digits. */
  predicate IsDigitRun(s: string) {
    && |s| > 0
    && IsDecimalDigit(s[0])
    && IsDecimalDigit(s[|s| - 1])
    && (forall i :: 0 <= i < |s| ==> IsRunChar(s[i]))
    && (forall i :: 0 <= i < |s| - 1 && s[i] == '_' ==> s[i + 1] != '_')
  }

  /** The value of a digit run, separators skipped. */
  function RunValue(s: string): nat
    requires forall i :: 0 <= i < |s| ==> IsRunChar(s[i])
  {
    if s == [] then 0
    else if assert IsRunChar(s[|s| - 1]); s[|s| - 1] == '_' then RunValue(s[..|s| - 1])
    else RunValue(s[..|s| - 1]) * 10 + DigitValue(s[|s| - 1])
  }

  /** `s.lstrip()`: drops the leading whitespace. */
  function StripLeft(s: string): (r: string)
    ensures |r| <= |s| && r == s[|s| - |r|..]
    ensures forall i :: 0 <= i < |s| - |r| ==> IsSpace(s[i])
    ensures r == [] || !IsSpace(r[0])
  {
    if s != [] && IsSpace(s[0]) then StripLeft(s[1..]) else s
  }

  /** `s.rstrip()`: drops the trailing whitespace. */
  function StripRight(s: string): (r: string)
    ensures |r| <= |s| && r == s[..|r|]
    ensures forall i :: |r| <= i < |s| ==> IsSpace(s[i])
    ensures r == [] || !IsSpace(r[|r| - 1])
  {
    if s != [] && IsSpace(s[|s| - 1]) then StripRight(s[..|s| - 1]) else s
  }

  /**
   * `int(s)` for a string: surrounding whitespace, an optional sign, then a
   * digit run. Anything else raises ValueError, modelled as `None`.
   */
  function ParseInt(s: string): (r: Option<int>)
    ensures (forall i :: 0 <= i < |s| ==> IsSpace(s[i])) ==> r.None?
    ensures IsDigitRun(s) ==> r == Some(RunValue(s) as int)
  {
    var t := StripRight(StripLeft(s));
    assert IsDigitRun(s) ==> t == s by {
      if IsDigitRun(s) {
        StripNothing(s);
      }
    }
    if |t| > 0 && (t[0] == '-' || t[0] == '+') then
      if IsDigitRun(t[1..]) then
        var v: int := RunValue(t[1..]);
        Some(if t[0] == '-' then -v else v)
      else None
    else if IsDigitRun(t) then Some(RunValue(t))
    else None
  }

  /** Two runs of plain digits with the same digit values in every place have the same value. */
  lemma {:induction false} RunValueSameDigits(a: string, b: string)
    requires |a| == |b|
    requires forall i :: 0 <= i < |a| ==>
      IsDecimalDigit(a[i]) && IsDecimalDigit(b[i]) && DigitValue(a[i]) == DigitValue(b[i])
    ensures RunValue(b) == RunValue(a)
  {
    if a != [] {
      RunValueSameDigits(a[..|a| - 1], b[..|b| - 1]);
    }
  }

  lemma {:induction false} RunValueOfNatDigits(n: nat)
    ensures IsDigitRun(NatDigits(n))
    ensures RunValue(NatDigits(n)) == n
  {
    var s := NatDigits(n);
    if n >= 10 {
      RunValueOfNatDigits(n / 10);
      assert s[..|s| - 1] == NatDigits(n / 10);
    }
  }

  lemma StripNothing(s: string)
    requires s != [] && !IsSpace(s[0]) && !IsSpace(s[|s| - 1])
    ensures StripRight(StripLeft(s)) == s
  {
  }

  /** `int()` of a bare digit run. */
  lemma ParseRun(body: string)
    requires IsDigitRun(body)
    ensures ParseInt(body) == Some(RunValue(body) as int)
  {
    StripNothing(body);
  }

  /** `int()` of a minus sign followed by a digit run. */
  lemma ParseNegativeRun(s: string, body: string, v: int)
    requires IsDigitRun(body) && RunValue(body) == v && s == "-" + body
    ensures ParseInt(s) == Some(-v)
  {
    assert s[|s| - 1] == body[|body| - 1];
    StripNothing(s);
    assert s[1..] == body;
  }

  /** A minus sign followed by the digits of `m` reads back as `-m`. */
  lemma ParseMinusDigits(s: string, m: nat)
    requires s == "-" + NatDigits(m)
    ensures ParseInt(s) == Some(-(m as int))
  {
    RunValueOfNatDigits(m);
    ParseNegativeRun(s, NatDigits(m), m);
  }

  /** `int(str(n)) == n` for a negative `n`. */
  lemma ParseNegativeDecimal(n: int)
    requires n < 0
    ensures ParseInt(DecimalString(n)) == Some(n)
  {
    ParseMinusDigits(DecimalString(n), -n);
  }

  /** `int(str(n)) == n` for a non-negative `n`. */
  lemma ParseNonNegativeDecimal(n: int)
    requires n >= 0
    ensures ParseInt(DecimalString(n)) == Some(n)
  {
    var body := NatDigits(n);
    RunValueOfNatDigits(n);
    assert DecimalString(n) == body;
    ParseRun(body);
  }

  /** `int(str(n)) == n`: the decimal rendering reads back as the same integer. */
  lemma ParseDecimalString(n: int)
    ensures ParseInt(DecimalString(n)) == Some(n)
  {
    if n < 0 {
      ParseNegativeDecimal(n);
    } else {
      ParseNonNegativeDecimal(n);
    }
  }

  /** A string that `int()` accepts holds nothing but whitespace, sign, digits and `_`. */
  lemma ParsedCharacters(s: string, i: int)
    requires ParseInt(s).Some? && 0 <= i < |s|
    ensures IsSpace(s[i]) || IsRunChar(s[i]) || s[i] == '+' || s[i] == '-'
  {
    var l := StripLeft(s);
    var t := StripRight(l);
    var off := |s| - |l|;
    if off <= i < off + |t| {
      assert s[i] == t[i - off];
      if |t| > 0 && (t[0] == '-' || t[0] == '+') && i - off > 0 {
        assert t[1..][i - off - 1] == t[i - off];
      }
    } else if i >= off + |t| {
      assert s[i] == l[i - off];
    }
  }
}
