/**
 * Java's fixed-width integers and their decimal text: the ranges of `int` and `long`,
 * 32-bit two's-complement wrap-around, `Integer.toString`/`Long.toString`, and the
 * syntax accepted by `Integer.parseInt`/`Long.parseLong` (ASCII digits only).
 */
module JavaNumbers {
  import opened Wrappers

  const INT_MIN: int := -0x8000_0000
  const INT_MAX: int := 0x7FFF_FFFF
  const LONG_MIN: int := -0x8000_0000_0000_0000
  const LONG_MAX: int := 0x7FFF_FFFF_FFFF_FFFF
  const TWO_32: int := 0x1_0000_0000

  predicate IsInt(x: int) {
    INT_MIN <= x <= INT_MAX
  }

  predicate IsLong(x: int) {
    LONG_MIN <= x <= LONG_MAX
  }

  /** The 32-bit two's-complement value of `x`, as Java's `int` arithmetic leaves it. */
  function Wrap32(x: int): (r: int)
    ensures IsInt(r)
    ensures (x - r) % TWO_32 == 0
    ensures IsInt(x) ==> r == x
  {
    var m := x % TWO_32;
    if m <= INT_MAX then m else m - TWO_32
  }

  /** Numbers that agree modulo 2^32 wrap to the same int. */
  lemma WrapCongruent(x: int, y: int)
    requires (x - y) % TWO_32 == 0
    ensures Wrap32(x) == Wrap32(y)
  {
    var q := (x - y) / TWO_32;
    assert x == y + q * TWO_32;
    assert x % TWO_32 == y % TWO_32;
  }

  /** Counting on from a wrapped counter is counting on and wrapping once. */
  lemma WrapCount(x: int, step: int)
    ensures Wrap32(Wrap32(x) + step) == Wrap32(x + step)
  {
    WrapCongruent(Wrap32(x) + step, x + step);
  }

  function Pow10(n: nat): (r: nat)
    ensures r >= 1
  {
    if n == 0 then 1 else 10 * Pow10(n - 1)
  }

  predicate IsDigit(c: char) {
    '0' <= c <= '9'
  }

  predicate AllDigits(s: string) {
    forall i :: 0 <= i < |s| ==> IsDigit(s[i])
  }

  function DigitChar(d: int): (c: char)
    requires 0 <= d < 10
    ensures IsDigit(c)
  {
    ('0' as int + d) as char
  }

  function DigitValue(c: char): (d: int)
    requires IsDigit(c)
    ensures 0 <= d < 10
  {
    c as int - '0' as int
  }

  /** Decimal digits of `n`, most significant first, without leading zeros. */
  function NatToString(n: nat): (s: string)
    ensures |s| > 0 && AllDigits(s)
    ensures |s| > 1 ==> s[0] != '0'
  {
    if n < 10 then [DigitChar(n)] else NatToString(n / 10) + [DigitChar(n % 10)]
  }

  /** Only digits and minus signs. */
  predicate DecimalChars(s: string) {
    forall i :: 0 <= i < |s| ==> IsDigit(s[i]) || s[i] == '-'
  }

  /** `Integer.toString` / `Long.toString`: a minus sign, then the digits of the magnitude. */
  function IntToString(n: int): (s: string)
    ensures |s| > 0
    ensures DecimalChars(s)
  {
    if n < 0 then "-" + NatToString(-n) else NatToString(n)
  }

  /** The number a string of ASCII digits denotes. */
  function DigitsValue(s: string): nat
    requires AllDigits(s)
  {
    if s == [] then 0 else 10 * DigitsValue(s[..|s| - 1]) + DigitValue(s[|s| - 1])
  }

  /**
   * The integer syntax of `Long.parseLong` and `Integer.parseInt`: an optional `+` or `-`
   * followed by at least one digit. The range check is left to `ParseInt`/`ParseLong`.
   */
  function ParseDecimal(s: string): Option<int> {
    if |s| > 0 && (s[0] == '-' || s[0] == '+') then
      if |s| > 1 && AllDigits(s[1..]) then
        Some(if s[0] == '-' then -(DigitsValue(s[1..]) as int) else DigitsValue(s[1..]) as int)
      else None
    else if |s| > 0 && AllDigits(s) then Some(DigitsValue(s))
    else None
  }

  /** `Integer.parseInt(s)`; `None` stands for `NumberFormatException`. */
  function ParseInt(s: string): (r: Option<int>)
    ensures r.Some? ==> IsInt(r.value)
  {
    match ParseDecimal(s)
    case Some(v) => if IsInt(v) then Some(v) else None
    case None => None
  }

  /** `Long.parseLong(s)`; `None` stands for `NumberFormatException`. */
  function ParseLong(s: string): (r: Option<int>)
    ensures r.Some? ==> IsLong(r.value)
  {
    match ParseDecimal(s)
    case Some(v) => if IsLong(v) then Some(v) else None
    case None => None
  }

  lemma {:induction false} DigitsValueOfNat(n: nat)
    ensures DigitsValue(NatToString(n)) == n
  {
    if n >= 10 {
      var s := NatToString(n);
      assert s[..|s| - 1] == NatToString(n / 10);
      DigitsValueOfNat(n / 10);
    }
  }

  lemma {:induction false} DigitsValueBound(s: string)
    requires AllDigits(s)
    ensures DigitsValue(s) < Pow10(|s|)
  {
    if s != [] {
      DigitsValueBound(s[..|s| - 1]);
    }
  }

  /** Every decimal text `ParseDecimal` accepts has a value below `10^|s|` in magnitude. */
  lemma ParseDecimalBound(s: string)
    requires ParseDecimal(s).Some?
    ensures -(Pow10(|s|) as int) < ParseDecimal(s).value < Pow10(|s|)
  {
    if s[0] == '-' || s[0] == '+' {
      DigitsValueBound(s[1..]);
      assert Pow10(|s| - 1) <= Pow10(|s|);
    } else {
      DigitsValueBound(s);
    }
  }

  /** Parsing inverts printing: `Long.parseLong(Long.toString(n)) == n`. */
  lemma ParseDecimalOfString(n: int)
    ensures ParseDecimal(IntToString(n)) == Some(n)
  {
    var s := IntToString(n);
    if n < 0 {
      var t := NatToString(-n);
      assert s == "-" + t;
      assert s[1..] == t;
      assert s[0] == '-';
      DigitsValueOfNat(-n);
    } else {
      var t := NatToString(n);
      assert s == t;
      assert IsDigit(t[0]);
      DigitsValueOfNat(n);
    }
  }

  lemma ParseIntOfString(n: int)
    requires IsInt(n)
    ensures ParseInt(IntToString(n)) == Some(n)
  {
    ParseDecimalOfString(n);
  }

  lemma ParseLongOfString(n: int)
    requires IsLong(n)
    ensures ParseLong(IntToString(n)) == Some(n)
  {
    ParseDecimalOfString(n);
  }

  /** A one-digit number with a leading zero, as `Draw.toString` writes it, parses back. */
  lemma ParseZeroPadded(n: int)
    requires 0 <= n < 10
    ensures ParseInt("0" + IntToString(n)) == Some(n)
  {
    var s := "0" + IntToString(n);
    assert s[..|s| - 1] == "0";
    assert DigitsValue("0") == 0 by {
      assert "0"[..0] == [];
    }
  }

  /** The decimals of the numbers, in order. */
  function Decimals(xs: seq<int>): (ds: seq<string>)
    ensures |ds| == |xs| && forall i :: 0 <= i < |xs| ==> ds[i] == IntToString(xs[i])
  {
    if xs == [] then [] else [IntToString(xs[0])] + Decimals(xs[1..])
  }

  /** A decimal holds neither blanks nor line breaks. */
  lemma DecimalHasNoSpace(n: int)
    ensures ' ' !in IntToString(n) && '\n' !in IntToString(n) && '\r' !in IntToString(n)
  {
    var s := IntToString(n);
    forall i | 0 <= i < |s| ensures s[i] != ' ' && s[i] != '\n' && s[i] != '\r' {
    }
  }
}
