/**
 * `util.HotComparator`, `util.ColdComparator` (kept under `src/util`) and the two identical
 * copies of `util.ReverseIntegerComparator`.
 */
module Comparators {
  import opened Wrappers
  import opened JavaNumbers
  import opened Percentages

  /** `HotComparator.compare`: the higher percentage comes first. */
  function HotCompare(first: Percentage, second: Percentage): (r: Option<int>)
    ensures r.Some? <==> first.denominator != 0 && second.denominator != 0
    ensures r.Some? ==> (r.value < 0 <==> Value(first) > Value(second))
  {
    CompareTo(second, first)
  }

  /** `ColdComparator.compare`: the lower percentage comes first. */
  function ColdCompare(first: Percentage, second: Percentage): (r: Option<int>)
    ensures r.Some? <==> first.denominator != 0 && second.denominator != 0
    ensures r.Some? ==> (r.value < 0 <==> Value(first) < Value(second))
  {
    CompareTo(first, second)
  }

  /** The cold order is the hot order read backwards. */
  lemma ColdIsReversedHot(a: Percentage, b: Percentage)
    ensures ColdCompare(a, b) == HotCompare(b, a)
  {
  }

  /** With the same number of draws counted, hot puts the ball seen more often first. */
  lemma HotByOccurrences(a: Percentage, b: Percentage)
    requires a.denominator == b.denominator > 0
    ensures HotCompare(a, b) == Some(IntSign(b.numerator - a.numerator))
  {
    CompareSameDenominator(b, a);
  }

  /** `ReverseIntegerComparator.compare`: `int2 - int1` in 32-bit arithmetic. */
  function ReverseIntegerCompare(int1: int, int2: int): (r: int)
    requires IsInt(int1) && IsInt(int2)
    ensures IsInt(r)
    ensures IsInt(int2 - int1) ==> (r < 0 <==> int1 > int2) && (r == 0 <==> int1 == int2)
  {
    Wrap32(int2 - int1)
  }

  /** Without overflow the order is exactly descending and antisymmetric. */
  lemma ReverseIntegerAntisymmetric(int1: int, int2: int)
    requires IsInt(int1) && IsInt(int2) && IsInt(int2 - int1) && IsInt(int1 - int2)
    ensures ReverseIntegerCompare(int1, int2) == -ReverseIntegerCompare(int2, int1)
  {
  }

  /**
   * The subtraction wraps for far-apart operands: both directions agree that
   * `Integer.MIN_VALUE` goes before 1, against the descending order.
   */
  lemma ReverseIntegerOverflow()
    ensures ReverseIntegerCompare(1, INT_MIN) > 0
    ensures ReverseIntegerCompare(INT_MIN, 1) < 0
  {
  }
}
