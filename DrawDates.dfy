/**
 * `util.DrawStringComparator`: orders the lines of a data file by the date at their start,
 * newest first. A line starts with a date such as "NOV 14 2012".
 */
module DrawDates {
  import opened Wrappers
  import opened JavaNumbers
  import opened Strings

  /** `DATE_LENGTH`: how much of a line holds its date. */
  const DATE_LENGTH := 11

  /** The month names `getMonth` accepts, January first. */
  const MONTHS: seq<string> := ["JAN", "FEB", "MAR", "APR", "MAY", "JUN",
                                "JUL", "AUG", "SEP", "OCT", "NOV", "DEC"]

  /** The private `Date` record. */
  datatype Date = Date(month: int, day: int, year: int)

  /**
   * The `switch` of `getMonth` from its `k`-th case on: the number of the first month name from
   * there that `s` equals; `None` where it equals none of them.
   */
  function MonthFrom(s: string, k: nat): (r: Option<int>)
    requires k <= |MONTHS|
    ensures r.Some? ==> k < r.value <= |MONTHS| && MONTHS[r.value - 1] == s
    ensures r.None? ==> forall j :: k <= j < |MONTHS| ==> MONTHS[j] != s
    decreases |MONTHS| - k
  {
    if k == |MONTHS| then None
    else if s == MONTHS[k] then Some(k + 1)
    else MonthFrom(s, k + 1)
  }

  /** `getMonth`: the month's number; `None` for the `IllegalStateException`. */
  function GetMonth(s: string): (r: Option<int>)
    ensures r.Some? ==> 1 <= r.value <= 12 && MONTHS[r.value - 1] == s
    ensures r.None? <==> s !in MONTHS
  {
    MonthFrom(s, 0)
  }

  /**
   * `getDate`: the month up to the first blank, the day between the first and the last
   * blank, the year after the last blank. Every exception the Java code can raise on the
   * way (no blank, a single blank, a bad month, a bad number) is `None`.
   */
  function GetDate(s: string): (r: Option<Date>)
    ensures r.Some? ==> 1 <= r.value.month <= 12
  {
    CutDate(s, CharIndex(s, ' '), LastCharIndex(s, ' '))
  }

  /** `getDate` once the first blank is found at `first` and the last at `last` (-1 for none). */
  function CutDate(s: string, first: int, last: int): (r: Option<Date>)
    requires -1 <= first < |s| && -1 <= last < |s|
    ensures r.Some? ==> 0 <= first < last
    ensures r.Some? ==> 1 <= r.value.month <= 12
  {
    if first == -1 || first + 1 > last then None
    else Assemble(s[..first], s[first + 1..last], s[last + 1..])
  }

  /** The date of a month name, a day and a year, each as `getDate` reads it. */
  function Assemble(month: string, day: string, year: string): (r: Option<Date>)
    ensures r.Some? <==> GetMonth(month).Some? && ParseInt(day).Some? && ParseInt(year).Some?
  {
    match (GetMonth(month), ParseInt(day), ParseInt(year))
    case (Some(m), Some(d), Some(y)) => Some(Date(m, d, y))
    case _ => None
  }

  /** `Date.compareTo`: year, then month, then day, each as `other - this` (`self` here) in 32 bits. */
  function DateCompareTo(self: Date, other: Date): (r: int)
    ensures IsInt(r)
    ensures self == other ==> r == 0
  {
    if self.year == other.year then
      if self.month == other.month then Wrap32(other.day - self.day)
      else Wrap32(other.month - self.month)
    else Wrap32(other.year - self.year)
  }

  /** `a` falls after `b` on the calendar. */
  predicate Later(a: Date, b: Date) {
    a.year > b.year || (a.year == b.year && (a.month > b.month || (a.month == b.month && a.day > b.day)))
  }

  /** The date at the start of a line; `None` when `substring(0, DATE_LENGTH)` or `getDate` throws. */
  function DateOf(line: string): (r: Option<Date>)
    ensures |line| < DATE_LENGTH ==> r.None?
    ensures r.Some? ==> 1 <= r.value.month <= 12
  {
    if |line| < DATE_LENGTH then None else GetDate(line[..DATE_LENGTH])
  }

  /** `compare`; `None` when either line has no readable date at its start. */
  function Compare(first: string, second: string): (r: Option<int>)
    ensures r.Some? <==> DateOf(first).Some? && DateOf(second).Some?
  {
    match (DateOf(first), DateOf(second))
    case (Some(a), Some(b)) => Some(DateCompareTo(a, b))
    case _ => None
  }

  /** Where the differences fit in 32 bits, the later date sorts first and only equal dates tie. */
  lemma DateOrder(a: Date, b: Date)
    requires IsInt(b.year - a.year) && IsInt(b.month - a.month) && IsInt(b.day - a.day)
    ensures DateCompareTo(a, b) < 0 <==> Later(a, b)
    ensures DateCompareTo(a, b) == 0 <==> a == b
    ensures DateCompareTo(a, b) > 0 <==> Later(b, a)
  {
  }

  lemma ParsedIntBound(s: string)
    requires |s| <= 7 && ParseInt(s).Some?
    ensures -10000000 < ParseInt(s).value < 10000000
  {
    ParseDecimalBound(s);
    Pow10Grows(|s|, 7);
    assert Pow10(7) == 10000000;
  }

  lemma {:induction false} Pow10Grows(m: nat, n: nat)
    requires m <= n
    ensures Pow10(m) <= Pow10(n)
    decreases n
  {
    if m < n {
      Pow10Grows(m, n - 1);
    }
  }

  /**
   * A date read from the eleven characters of a line's start has a month of three letters,
   * so its day and year have at most six characters each: no difference overflows.
   */
  lemma DateBounds(s: string)
    requires |s| == DATE_LENGTH && GetDate(s).Some?
    ensures 1 <= GetDate(s).value.month <= 12
    ensures -10000000 < GetDate(s).value.day < 10000000
    ensures -10000000 < GetDate(s).value.year < 10000000
  {
    var first := CharIndex(s, ' ');
    var last := LastCharIndex(s, ' ');
    assert s[..first] in MONTHS;
    assert first == 3;
    ParsedIntBound(s[first + 1..last]);
    ParsedIntBound(s[last + 1..]);
  }

  /** `compare` sorts lines newest first, and ties exactly the lines of the same date. */
  lemma CompareNewestFirst(first: string, second: string)
    requires DateOf(first).Some? && DateOf(second).Some?
    ensures Compare(first, second).Some?
    ensures Compare(first, second).value < 0 <==> Later(DateOf(first).value, DateOf(second).value)
    ensures Compare(first, second).value == 0 <==> DateOf(first).value == DateOf(second).value
    ensures Compare(first, second).value > 0 <==> Later(DateOf(second).value, DateOf(first).value)
  {
    DateBounds(first[..DATE_LENGTH]);
    DateBounds(second[..DATE_LENGTH]);
    DateOrder(DateOf(first).value, DateOf(second).value);
  }

  /** Swapping the lines flips the sign of `compare`. */
  lemma CompareAntisymmetric(first: string, second: string)
    requires Compare(first, second).Some?
    ensures Compare(second, first).Some?
    ensures Compare(first, second).value < 0 <==> Compare(second, first).value > 0
    ensures Compare(first, second).value == 0 <==> Compare(second, first).value == 0
  {
    CompareNewestFirst(first, second);
    CompareNewestFirst(second, first);
  }

  /** `compare` is transitive. */
  lemma CompareTransitive(a: string, b: string, c: string)
    requires Compare(a, b).Some? && Compare(b, c).Some?
    requires Compare(a, b).value < 0 && Compare(b, c).value < 0
    ensures Compare(a, c).Some? && Compare(a, c).value < 0
  {
    CompareNewestFirst(a, b);
    CompareNewestFirst(b, c);
    CompareNewestFirst(a, c);
  }

  /** Only the first eleven characters of a line take part. */
  lemma DateOfPrefix(line: string, rest: string)
    requires |line| >= DATE_LENGTH
    ensures DateOf(line + rest) == DateOf(line)
  {
    assert (line + rest)[..DATE_LENGTH] == line[..DATE_LENGTH];
  }

  lemma TwoDigitText(n: nat)
    requires 10 <= n < 100
    ensures |NatToString(n)| == 2
  {
  }

  lemma FourDigitText(n: nat)
    requires 1000 <= n < 10000
    ensures |NatToString(n)| == 4
  {
    assert |NatToString(n / 10)| == 3 by {
      TwoDigitText(n / 100);
    }
  }

  /** `getMonth` reads each month's name as its number, so it fails exactly on other texts. */
  lemma MonthNames(k: int)
    requires 1 <= k <= 12
    ensures GetMonth(MONTHS[k - 1]) == Some(k)
  {
    MonthsDistinct();
  }

  /** Every month name is three letters without a blank. */
  lemma MonthName(m: string)
    requires m in MONTHS
    ensures |m| == 3 && ' ' !in m
  {
    var k :| 0 <= k < |MONTHS| && MONTHS[k] == m;
    assert forall j :: 0 <= j < |MONTHS| ==> |MONTHS[j]| == 3 && ' ' !in MONTHS[j];
  }

  /** No month name is listed twice. */
  lemma MonthsDistinct()
    ensures forall i, j :: 0 <= i < j < |MONTHS| ==> MONTHS[i] != MONTHS[j]
  {
    forall i, j | 0 <= i < j < |MONTHS| ensures MONTHS[i] != MONTHS[j] {
      assert MONTHS[i][0] != MONTHS[j][0] || MONTHS[i][1] != MONTHS[j][1] || MONTHS[i][2] != MONTHS[j][2];
    }
  }

  /** A date written "MMM DD YYYY", with a two-digit day and a four-digit year. */
  function DateText(d: Date): string
    requires 1 <= d.month <= 12
  {
    MONTHS[d.month - 1] + " " + IntToString(d.day) + " " + IntToString(d.year)
  }

  predicate Writable(d: Date) {
    1 <= d.month <= 12 && 10 <= d.day < 100 && 1000 <= d.year < 10000
  }

  lemma CutFirst(s: string, m: string, rest: string)
    requires s == m + " " + rest && ' ' !in m
    ensures CharIndex(s, ' ') == |m|
  {
    assert s == m + [' '] + rest;
    CharIndexAfter(m, ' ', rest);
  }

  lemma CutLast(s: string, left: string, yy: string)
    requires s == left + " " + yy && ' ' !in yy
    ensures LastCharIndex(s, ' ') == |left|
  {
    assert s == left + [' '] + yy;
    LastCharIndexBefore(left, ' ', yy);
  }

  /** Where `getDate` cuts a text of three blank-free parts with a blank between each two. */
  lemma GetDateCuts(s: string, m: string, dd: string, yy: string)
    requires s == m + " " + dd + " " + yy
    requires ' ' !in m && ' ' !in dd && ' ' !in yy
    ensures GetDate(s) == Assemble(m, dd, yy)
  {
    CutFirst(s, m, dd + " " + yy);
    CutLast(s, m + " " + dd, yy);
    var first, last := |m|, |m| + 1 + |dd|;
    ThreeParts(s, m, dd, yy, first, last);
    GetDateAt(s, first, last);
  }

  /** `getDate` with the blanks found at `first` and `last`. */
  lemma GetDateAt(s: string, first: int, last: int)
    requires first == CharIndex(s, ' ') && last == LastCharIndex(s, ' ') && 0 <= first && first + 1 <= last
    ensures GetDate(s) == Assemble(s[..first], s[first + 1..last], s[last + 1..])
  {
    CutDateAt(s, first, last);
  }

  lemma CutDateAt(s: string, first: int, last: int)
    requires 0 <= first && first + 1 <= last < |s|
    ensures CutDate(s, first, last) == Assemble(s[..first], s[first + 1..last], s[last + 1..])
  {
  }

  /** The three parts of a text made of them with a blank between each two. */
  lemma ThreeParts(s: string, m: string, dd: string, yy: string, first: int, last: int)
    requires s == m + " " + dd + " " + yy && first == |m| && last == first + 1 + |dd|
    ensures s[..first] == m && s[first + 1..last] == dd && s[last + 1..] == yy
  {
    var t := dd + " " + yy;
    assert s == m + " " + t;
    assert s[|m| + 1..] == t;
    assert t[..|dd|] == dd && t[|dd| + 1..] == yy;
  }

  /** A line that starts with such a date is read back as that date, whatever follows. */
  lemma DateTextRead(d: Date, rest: string)
    requires Writable(d)
    ensures |DateText(d)| == DATE_LENGTH
    ensures DateOf(DateText(d) + rest) == Some(d)
  {
    var m := MONTHS[d.month - 1];
    TwoDigitText(d.day);
    FourDigitText(d.year);
    assert |m| == 3 && ' ' !in m;
    DecimalHasNoSpace(d.year);
    DecimalHasNoSpace(d.day);
    GetDateCuts(DateText(d), m, IntToString(d.day), IntToString(d.year));
    ParseIntOfString(d.day);
    ParseIntOfString(d.year);
    MonthNames(d.month);
    DateOfPrefix(DateText(d), rest);
    assert DateText(d)[..DATE_LENGTH] == DateText(d);
  }

  /**
   * A day of one digit shifts the year into the twelfth character's place, so the eleven
   * characters end in the field's tab and the year cannot be read.
   */
  lemma SingleDigitDayUnreadable(m: string, day: nat, year: nat, rest: string)
    requires m in MONTHS && day < 10 && 1000 <= year < 10000
    ensures DateOf(m + " " + IntToString(day) + " " + IntToString(year) + "\t" + rest) == None
  {
    var dd, yy := IntToString(day), IntToString(year);
    MonthName(m);
    FourDigitText(year);
    var s := m + " " + dd + " " + (yy + "\t");
    assert |s| == DATE_LENGTH && s + rest == m + " " + dd + " " + yy + "\t" + rest;
    DateOfPrefix(s, rest);
    assert s[..DATE_LENGTH] == s;
    DecimalHasNoSpace(day);
    assert ' ' !in yy + "\t" by {
      DecimalHasNoSpace(year);
    }
    GetDateCuts(s, m, dd, yy + "\t");
    assert (yy + "\t")[4] == '\t';
    NotDecimal(yy + "\t", 4);
  }

  /** A text with a character other than a digit past its first reads as no number. */
  lemma NotDecimal(t: string, i: int)
    requires 0 < i < |t| && !IsDigit(t[i])
    ensures ParseDecimal(t) == None
  {
    assert !AllDigits(t);
    assert t[1..][i - 1] == t[i];
  }
}
