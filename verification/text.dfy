/**
 * Decimal text as the Go services read and write it: `strconv.ParseUint`,
 * `strconv.ParseInt` / `strconv.Atoi` with base 10, and the `%d` verb.
 */
module Text {
  import opened Wrappers

  const Pow32: nat := 0x1_0000_0000
  const Pow63: nat := 0x8000_0000_0000_0000
  const Pow64: nat := 0x1_0000_0000_0000_0000

  predicate IsDigit(c: char) {
    '0' <= c <= '9'
  }

  predicate AllDigits(s: string) {
    forall i :: 0 <= i < |s| ==> IsDigit(s[i])
  }

  function DigitValue(c: char): nat
    requires IsDigit(c)
  {
    c as int - '0' as int
  }

  function DigitChar(d: nat): (c: char)
    requires d < 10
    ensures IsDigit(c) && DigitValue(c) == d
  {
    ('0' as int + d) as char
  }

  /** The value of a string of decimal digits, most significant digit first. */
  function DigitsValue(s: string): nat
    requires AllDigits(s)
    decreases |s|
  {
    if |s| == 0 then 0 else 10 * DigitsValue(s[..|s| - 1]) + DigitValue(s[|s| - 1])
  }

  /** `fmt.Sprintf("%d", n)` for an unsigned n: shortest digit string, read back as n. */
  function DecimalString(n: nat): (s: string)
    ensures 0 < |s| && AllDigits(s)
    ensures s[0] != '0' || |s| == 1
    ensures DigitsValue(s) == n
    decreases n
  {
    if n < 10 then
      [DigitChar(n)]
    else
      var s := DecimalString(n / 10) + [DigitChar(n % 10)];
      assert s[..|s| - 1] == DecimalString(n / 10);
      s
  }

  /** Two digit strings without leading zeros that have the same value are equal. */
  lemma {:induction false} CanonicalDigitsUnique(s: string, t: string)
    requires 0 < |s| && AllDigits(s) && (s[0] != '0' || |s| == 1)
    requires 0 < |t| && AllDigits(t) && (t[0] != '0' || |t| == 1)
    requires DigitsValue(s) == DigitsValue(t)
    ensures s == t
    decreases |s|
  {
    var s', t' := s[..|s| - 1], t[..|t| - 1];
    assert DigitValue(s[|s| - 1]) == DigitsValue(s) % 10 && DigitsValue(s') == DigitsValue(s) / 10;
    assert DigitValue(t[|t| - 1]) == DigitsValue(t) % 10 && DigitsValue(t') == DigitsValue(t) / 10;
    if |s'| == 0 || |t'| == 0 {
      if |s'| != 0 {
        LeadingDigitPositive(s');
      } else if |t'| != 0 {
        LeadingDigitPositive(t');
      }
    } else {
      CanonicalDigitsUnique(s', t');
    }
    assert s == s' + [s[|s| - 1]] && t == t' + [t[|t| - 1]];
  }

  /** A non-empty digit string that does not start with '0' has a positive value. */
  lemma {:induction false} LeadingDigitPositive(s: string)
    requires 0 < |s| && AllDigits(s) && s[0] != '0'
    ensures DigitsValue(s) > 0
    decreases |s|
  {
    if |s| > 1 {
      LeadingDigitPositive(s[..|s| - 1]);
    }
  }

  /** `%d` is injective: distinct numbers print differently. */
  lemma DecimalStringInjective(m: nat, n: nat)
    requires DecimalString(m) == DecimalString(n)
    ensures m == n
  {
  }

  /** `%d` formatting of any integer. */
  function IntString(i: int): (s: string)
    ensures 0 < |s|
    ensures i >= 0 ==> s == DecimalString(i)
    ensures i < 0 ==> s[0] == '-' && s[1..] == DecimalString(-i)
  {
    if i < 0 then "-" + DecimalString(-i) else DecimalString(i)
  }

  /** Go's `int64(u)` for an unsigned 64-bit u: values from 2^63 up wrap to negatives. */
  function ToInt64(u: nat): (i: int)
    ensures -(Pow63 as int) <= i < Pow63
    ensures (u - i) % Pow64 == 0
    ensures u < Pow63 ==> i == u
  {
    var w := u % Pow64;
    if w < Pow63 then w else (w as int) - Pow64
  }

  /** Go's `uint(i)` / `uint64(i)` for a 64-bit signed i: negative values wrap around 2^64. */
  function ToUint64(i: int): (u: nat)
    ensures u < Pow64
    ensures (i - u) % Pow64 == 0
    ensures 0 <= i < Pow64 ==> u == i
  {
    i % Pow64
  }

  /** Go's `int8(i)`: the low eight bits read as a signed byte. */
  function ToInt8(i: int): (b: int)
    ensures -128 <= b < 128
    ensures (i - b) % 256 == 0
    ensures -128 <= i < 128 ==> b == i
  {
    var w := i % 256;
    if w < 128 then w else w - 256
  }

  /** `strconv.ParseUint(s, 10, bitSize)` where `bound` is 2^bitSize. */
  function ParseUint(s: string, bound: nat): (r: Result<nat>)
  {
    if |s| == 0 then Err("strconv.ParseUint: parsing \"\": invalid syntax")
    else if !AllDigits(s) then Err("strconv.ParseUint: invalid syntax")
    else if DigitsValue(s) >= bound then Err("strconv.ParseUint: value out of range")
    else Ok(DigitsValue(s))
  }

  /**
   * `strconv.ParseInt(s, 10, bitSize)` where `bound` is 2^(bitSize-1): an optional
   * sign followed by decimal digits, the value within [-bound, bound).
   */
  function ParseInt(s: string, bound: nat): (r: Result<int>)
  {
    if 0 < |s| && s[0] == '-' then
      match ParseUint(s[1..], bound + 1)
      case Ok(v) => Ok(-(v as int))
      case Err(e) => Err(e)
    else
      var digits := if 0 < |s| && s[0] == '+' then s[1..] else s;
      match ParseUint(digits, bound)
      case Ok(v) => Ok(v)
      case Err(e) => Err(e)
  }

  /** `strconv.Atoi` on a 64-bit platform, where `int` has 64 bits. */
  function Atoi(s: string): Result<int> {
    ParseInt(s, Pow63)
  }

  /** ParseUint accepts exactly the non-empty digit strings whose value is below the bound. */
  lemma ParseUintSpec(s: string, bound: nat)
    ensures ParseUint(s, bound).Ok? <==> 0 < |s| && AllDigits(s) && DigitsValue(s) < bound
    ensures ParseUint(s, bound).Ok? ==> ParseUint(s, bound).value == DigitsValue(s)
  {
  }

  /** ParseUint reads back what `%d` printed, whenever the value fits. */
  lemma ParseUintDecimal(n: nat, bound: nat)
    requires n < bound
    ensures ParseUint(DecimalString(n), bound) == Ok(n)
  {
  }

  /** Atoi reads back `%d` of any int64, with or without a leading minus. */
  lemma AtoiDecimal(n: nat)
    ensures n < Pow63 ==> Atoi(DecimalString(n)) == Ok(n)
    ensures n <= Pow63 ==> Atoi("-" + DecimalString(n)) == Ok(-(n as int))
  {
    var d := DecimalString(n);
    assert IsDigit(d[0]);
    if n < Pow63 {
      ParseUintDecimal(n, Pow63);
      assert Atoi(d) == Ok(n);
    }
    if n <= Pow63 {
      var m := "-" + d;
      assert m[0] == '-' && m[1..] == d;
      ParseUintDecimal(n, Pow63 + 1);
      assert ParseInt(m, Pow63) == Ok(-(n as int));
    }
  }

  /** Whatever Atoi accepts lies in the int64 range. */
  lemma AtoiRange(s: string)
    ensures Atoi(s).Ok? ==> -(Pow63 as int) <= Atoi(s).value < Pow63
  {
  }
}
