/**
 * `analyzer.Percentage`: an immutable pair of Java ints, numerator over denominator,
 * counting in how many of a number of draws a ball was seen.
 */
module Percentages {
  import opened Wrappers
  import opened JavaNumbers

  datatype Percentage = Percentage(numerator: int, denominator: int)

  /** Both components are Java ints. */
  predicate Valid(p: Percentage) {
    IsInt(p.numerator) && IsInt(p.denominator)
  }

  /** `Percentage.ZERO`, the count before any draw: 0 out of 0. */
  const ZERO := Percentage(0, 0)

  /** `equals`: component-wise, so 1/2 and 2/4 differ. */
  function Equals(p: Percentage, q: Percentage): (r: bool)
    ensures r <==> p == q
  {
    p.numerator == q.numerator && p.denominator == q.denominator
  }

  /** `String.hashCode` with Java's 32-bit wrap-around, 31 per character. */
  function StringHash(s: string): (h: int)
    ensures IsInt(h)
  {
    if s == [] then 0 else Wrap32(31 * StringHash(s[..|s| - 1]) + s[|s| - 1] as int)
  }

  /** `hashCode`: the hash of the two decimals written one after the other, plus one. */
  function HashCode(p: Percentage): (h: int)
    ensures IsInt(h)
  {
    Wrap32(StringHash(IntToString(p.numerator) + IntToString(p.denominator)) + 1)
  }

  /** `addOccurance`: one more draw, and the ball was in it. */
  function AddOccurance(p: Percentage): (r: Percentage)
    ensures Valid(r)
    ensures IsInt(p.numerator + 1) && IsInt(p.denominator + 1) ==>
      r.numerator == p.numerator + 1 && r.denominator == p.denominator + 1
  {
    Percentage(Wrap32(p.numerator + 1), Wrap32(p.denominator + 1))
  }

  /** `addNonOccurance`: one more draw, without the ball. */
  function AddNonOccurance(p: Percentage): (r: Percentage)
    ensures Valid(r)
    ensures IsInt(p.numerator) ==> r.numerator == p.numerator
    ensures IsInt(p.denominator + 1) ==> r.denominator == p.denominator + 1
  {
    Percentage(Wrap32(p.numerator), Wrap32(p.denominator + 1))
  }

  /**
   * `doubleValue`: the quotient. BigDecimal divides with 34 significant digits; two
   * quotients of Java ints that differ, differ by far more than that precision, so
   * rounding never changes how two of them compare and the exact quotient stands in.
   * A zero denominator makes BigDecimal throw, so the value is then undefined.
   */
  function Value(p: Percentage): real
    requires p.denominator != 0
  {
    p.numerator as real / p.denominator as real
  }

  function RealSign(x: real): int {
    if x < 0.0 then -1 else if x > 0.0 then 1 else 0
  }

  function IntSign(x: int): int {
    if x < 0 then -1 else if x > 0 then 1 else 0
  }

  /** `compareTo`: the order of the two quotients; `None` where `divide` throws. */
  function CompareTo(a: Percentage, b: Percentage): (r: Option<int>)
    ensures r.Some? <==> a.denominator != 0 && b.denominator != 0
    ensures r.Some? ==> -1 <= r.value <= 1
  {
    if a.denominator == 0 || b.denominator == 0 then None
    else Some(RealSign(Value(a) - Value(b)))
  }

  /** The comparison read off the cross-multiplied integers, as code that avoids reals would. */
  lemma CompareToCross(a: Percentage, b: Percentage)
    requires a.denominator > 0 && b.denominator > 0
    ensures CompareTo(a, b) == Some(IntSign(a.numerator * b.denominator - b.numerator * a.denominator))
  {
    var x, y := Value(a), Value(b);
    var da, db := a.denominator as real, b.denominator as real;
    assert x * da == a.numerator as real;
    assert y * db == b.numerator as real;
    var cross := (a.numerator * b.denominator - b.numerator * a.denominator) as real;
    assert cross == (x - y) * (da * db);
    assert da * db > 0.0;
    if x < y {
      assert (x - y) * (da * db) < 0.0;
    } else if x > y {
      assert (x - y) * (da * db) > 0.0;
    }
  }

  /** Over one common positive denominator the order is that of the numerators. */
  lemma CompareSameDenominator(a: Percentage, b: Percentage)
    requires a.denominator == b.denominator > 0
    ensures CompareTo(a, b) == Some(IntSign(a.numerator - b.numerator))
  {
    CompareToCross(a, b);
    var d := a.denominator;
    assert a.numerator * d - b.numerator * d == (a.numerator - b.numerator) * d;
    if a.numerator < b.numerator {
      assert (a.numerator - b.numerator) * d < 0;
    } else if a.numerator > b.numerator {
      assert (a.numerator - b.numerator) * d > 0;
    }
  }

  lemma CompareToAntisymmetric(a: Percentage, b: Percentage)
    requires a.denominator != 0 && b.denominator != 0
    ensures CompareTo(a, b).value == -CompareTo(b, a).value
  {
  }

  lemma CompareToTransitive(a: Percentage, b: Percentage, c: Percentage)
    requires a.denominator != 0 && b.denominator != 0 && c.denominator != 0
    requires CompareTo(a, b).value <= 0 && CompareTo(b, c).value <= 0
    ensures CompareTo(a, c).value <= 0
    ensures CompareTo(a, c).value == 0 ==> CompareTo(a, b).value == 0 && CompareTo(b, c).value == 0
  {
  }

  /** `ZERO` cannot take part in a comparison: dividing 0 by 0 throws. */
  lemma ZeroIncomparable(p: Percentage)
    ensures CompareTo(ZERO, p) == None && CompareTo(p, ZERO) == None
  {
  }

  /** `compareTo` is not consistent with `equals`: 1/2 and 2/4 compare equal yet are not equal. */
  lemma CompareToNotEquals()
    ensures CompareTo(Percentage(1, 2), Percentage(2, 4)) == Some(0)
    ensures !Equals(Percentage(1, 2), Percentage(2, 4))
  {
    CompareToCross(Percentage(1, 2), Percentage(2, 4));
  }

  /** Two different percentages can share a hash: 1/23 and 12/3 both print "123". */
  lemma HashCollision()
    ensures HashCode(Percentage(1, 23)) == HashCode(Percentage(12, 3))
    ensures !Equals(Percentage(1, 23), Percentage(12, 3))
  {
    assert IntToString(1) + IntToString(23) == IntToString(12) + IntToString(3) == "123";
  }

  /** A draw that contains the ball never lowers its percentage, and raises it unless it was 100%. */
  lemma OccuranceRaises(p: Percentage)
    requires 0 <= p.numerator <= p.denominator < INT_MAX && p.denominator > 0
    ensures CompareTo(AddOccurance(p), p).value >= 0
    ensures CompareTo(AddOccurance(p), p).value == 0 <==> p.numerator == p.denominator
  {
    var q := AddOccurance(p);
    CompareToCross(q, p);
    var n, d := p.numerator, p.denominator;
    assert q.numerator * d - n * q.denominator == d - n;
  }

  /** A draw without the ball never raises its percentage, and lowers it unless it was 0%. */
  lemma NonOccuranceLowers(p: Percentage)
    requires 0 <= p.numerator <= p.denominator < INT_MAX && p.denominator > 0
    ensures CompareTo(AddNonOccurance(p), p).value <= 0
    ensures CompareTo(AddNonOccurance(p), p).value == 0 <==> p.numerator == 0
  {
    var q := AddNonOccurance(p);
    CompareToCross(q, p);
    var n, d := p.numerator, p.denominator;
    assert q.numerator * d - n * q.denominator == -n;
  }
}
