/** `analyzer.Draw`: one past draw of a game, and the text helpers that read draw pages. */
module Draws {
  import opened Wrappers
  import opened JavaNumbers
  import opened Strings
  import NumberUtils

  /** `DELIMITER`, between the fields of a draw's line in a data file. */
  const DELIMITER := "\t"

  /**
   * A draw. The numbers are the value of the array the object clones on the way in and
   * on the way out, so no caller can change them.
   */
  datatype Draw = Draw(date: string, numbers: seq<int>, bonusBall: int, jackpotWinner: bool,
                       payout: int, numberRange: int, bonusBallRange: int)

  /** The constructor of a draw with a bonus ball. */
  method NewDraw(theDate: string, theNumbers: array<int>, theBonusBall: int, theJackpotStatus: bool,
                 thePayout: int, theNumberRange: int, theBonusBallRange: int) returns (d: Draw)
    ensures d.date == theDate && d.numbers == theNumbers[..] && d.bonusBall == theBonusBall
    ensures d.jackpotWinner == theJackpotStatus && d.payout == thePayout
    ensures d.numberRange == theNumberRange && d.bonusBallRange == theBonusBallRange
  {
    d := Draw(theDate, theNumbers[..], theBonusBall, theJackpotStatus, thePayout, theNumberRange, theBonusBallRange);
  }

  /** The constructor of a draw without a bonus ball: both bonus fields are 0. */
  method NewDrawNoBonus(theDate: string, theNumbers: array<int>, theJackpotStatus: bool,
                        thePayout: int, theNumberRange: int) returns (d: Draw)
    ensures d.date == theDate && d.numbers == theNumbers[..] && d.bonusBall == 0
    ensures d.jackpotWinner == theJackpotStatus && d.payout == thePayout
    ensures d.numberRange == theNumberRange && d.bonusBallRange == 0
  {
    d := Draw(theDate, theNumbers[..], 0, theJackpotStatus, thePayout, theNumberRange, 0);
  }

  /** `numbers()`: a fresh copy of the numbers. */
  method NumbersArray(d: Draw) returns (a: array<int>)
    ensures fresh(a) && a[..] == d.numbers
  {
    a := new int[|d.numbers|](i requires 0 <= i < |d.numbers| => d.numbers[i]);
  }

  /** A ball as `toString` writes it: a '0' in front of anything below ten. */
  function Padded(n: int): string {
    if n < 10 then "0" + IntToString(n) else IntToString(n)
  }

  function PaddedAll(ns: seq<int>): (ps: seq<string>)
    ensures |ps| == |ns| && forall i :: 0 <= i < |ns| ==> ps[i] == Padded(ns[i])
  {
    if ns == [] then [] else [Padded(ns[0])] + PaddedAll(ns[1..])
  }

  function JackpotText(winner: bool): string {
    if winner then "TRUE" else "FALSE"
  }

  /** The bonus ball and its tab, when the draw has one. */
  function BonusText(d: Draw): string {
    if d.bonusBall > 0 then IntToString(d.bonusBall) + DELIMITER else ""
  }

  /** The jackpot status, an empty field, the payout, the range and the bonus-ball range if any. */
  function TailText(d: Draw): string {
    JackpotText(d.jackpotWinner) + DELIMITER + DELIMITER + IntToString(d.payout)
    + DELIMITER + IntToString(d.numberRange)
    + (if d.bonusBall > 0 then DELIMITER + IntToString(d.bonusBallRange) else "")
  }

  /** The line `toString` writes: the date, each ball padded and followed by a tab, a tab, then the rest. */
  function Serialize(d: Draw): string {
    d.date + DELIMITER + Terminated(PaddedAll(d.numbers), DELIMITER) + DELIMITER + BonusText(d) + TailText(d)
  }

  /** The loop of `toString` that writes each ball, padded, followed by a tab. */
  method BallsText(numbers: seq<int>) returns (out: string)
    ensures out == Terminated(PaddedAll(numbers), DELIMITER)
  {
    out := "";
    ghost var ps := PaddedAll(numbers);
    var i := 0;
    while i < |numbers|
      invariant 0 <= i <= |numbers|
      invariant out == Terminated(ps[..i], DELIMITER)
    {
      var num := numbers[i];
      var ball := IntToString(num);
      if num < 10 {
        ball := "0" + ball;
      }
      assert ball == ps[i];
      TerminatedStep(ps, i, DELIMITER);
      out := out + ball + DELIMITER;
      i := i + 1;
    }
    assert ps[..i] == ps;
  }

  /** `toString`. */
  method ToString(d: Draw) returns (s: string)
    ensures s == Serialize(d)
  {
    var balls := BallsText(d.numbers);
    var bonus := "";
    if d.bonusBall > 0 {
      bonus := IntToString(d.bonusBall) + DELIMITER;
    }
    var jackpot := "FALSE";
    if d.jackpotWinner {
      jackpot := "TRUE";
    }
    var tail := jackpot + DELIMITER + DELIMITER + IntToString(d.payout) + DELIMITER + IntToString(d.numberRange);
    if d.bonusBall > 0 {
      tail := tail + DELIMITER + IntToString(d.bonusBallRange);
    }
    s := d.date + DELIMITER + balls + DELIMITER + bonus + tail;
  }

  function BonusFields(d: Draw): seq<string> {
    if d.bonusBall > 0 then [IntToString(d.bonusBall)] else []
  }

  function TailFields(d: Draw): seq<string> {
    [JackpotText(d.jackpotWinner), "", IntToString(d.payout), IntToString(d.numberRange)]
    + (if d.bonusBall > 0 then [IntToString(d.bonusBallRange)] else [])
  }

  /**
   * The fields of the line, in order: the date, the balls, an empty field, the bonus ball
   * if there is one, "TRUE" or "FALSE", an empty field, the payout, the range and the
   * bonus-ball range if there is a bonus ball.
   */
  function Fields(d: Draw): seq<string> {
    [d.date] + (PaddedAll(d.numbers) + ([""] + (BonusFields(d) + TailFields(d))))
  }

  lemma {:induction false} JoinTerminatedPrefix(ps: seq<string>, rest: seq<string>, d: string)
    requires |rest| > 0
    ensures Join(ps + rest, d) == Terminated(ps, d) + Join(rest, d)
  {
    if ps != [] {
      assert (ps + rest)[1..] == ps[1..] + rest;
      JoinTerminatedPrefix(ps[1..], rest, d);
    } else {
      assert ps + rest == rest;
    }
  }

  lemma TailFieldsJoin(d: Draw)
    ensures Join(TailFields(d), DELIMITER) == TailText(d)
  {
    var t := DELIMITER;
    var four := [JackpotText(d.jackpotWinner), "", IntToString(d.payout), IntToString(d.numberRange)];
    var a, p, n := JackpotText(d.jackpotWinner), IntToString(d.payout), IntToString(d.numberRange);
    assert four[1..] == ["", p, n] && ["", p, n][1..] == [p, n] && [p, n][1..] == [n];
    assert Join([p, n], t) == p + t + n;
    assert Join(["", p, n], t) == "" + t + (p + t + n);
    assert Join(four, t) == a + t + t + p + t + n;
    if d.bonusBall > 0 {
      JoinSnoc(four, IntToString(d.bonusBallRange), t);
    } else {
      assert TailFields(d) == four;
    }
  }

  lemma BonusFieldsText(d: Draw)
    ensures Terminated(BonusFields(d), DELIMITER) == BonusText(d)
  {
    if d.bonusBall > 0 {
      assert BonusFields(d)[1..] == [];
    }
  }

  lemma AfterBallsJoin(d: Draw)
    ensures Join([""] + (BonusFields(d) + TailFields(d)), DELIMITER) == DELIMITER + BonusText(d) + TailText(d)
  {
    var rest := [""] + (BonusFields(d) + TailFields(d));
    JoinTerminatedPrefix(BonusFields(d), TailFields(d), DELIMITER);
    TailFieldsJoin(d);
    BonusFieldsText(d);
    assert rest[1..] == BonusFields(d) + TailFields(d);
  }

  /** The line is its fields joined by tabs. */
  lemma SerializeFields(d: Draw)
    ensures Serialize(d) == Join(Fields(d), DELIMITER)
  {
    var t := DELIMITER;
    var nums := PaddedAll(d.numbers);
    var rest := [""] + (BonusFields(d) + TailFields(d));
    var after := nums + rest;
    var bt, tt := BonusText(d), TailText(d);
    var tn := Terminated(nums, t);
    AfterBallsJoin(d);
    JoinTerminatedPrefix(nums, rest, t);
    assert Join(after, t) == tn + (t + bt + tt);
    JoinCons(d.date, after, t);
    assert Serialize(d) == d.date + t + tn + t + bt + tt;
    Regroup(d.date, t, tn, bt, tt);
  }

  lemma JoinCons(p: string, ps: seq<string>, d: string)
    requires |ps| > 0
    ensures Join([p] + ps, d) == p + d + Join(ps, d)
  {
    assert ([p] + ps)[1..] == ps;
  }

  lemma Regroup(a: string, t: string, n: string, b: string, c: string)
    ensures a + t + (n + (t + b + c)) == a + t + n + t + b + c
  {
  }

  lemma PaddedHasNoTab(n: int)
    ensures '\t' !in Padded(n)
  {
    var s := Padded(n);
    forall i | 0 <= i < |s| ensures s[i] != '\t' {
      if n < 10 && i > 0 {
        assert s[i] == IntToString(n)[i - 1];
      }
    }
  }

  /** No field but the date can hold a tab. */
  lemma FieldsFree(d: Draw)
    requires '\t' !in d.date
    ensures forall i :: 0 <= i < |Fields(d)| ==> '\t' !in Fields(d)[i]
  {
    var nums := PaddedAll(d.numbers);
    forall i | 0 <= i < |nums| ensures '\t' !in nums[i] {
      PaddedHasNoTab(d.numbers[i]);
    }
    DecimalHasNoTab(d.bonusBall);
    DecimalHasNoTab(d.payout);
    DecimalHasNoTab(d.numberRange);
    DecimalHasNoTab(d.bonusBallRange);
    var bonus, tail := BonusFields(d), TailFields(d);
    assert TabFree(bonus) && TabFree(tail);
    TabFreeJoin(bonus, tail);
    TabFreeJoin([""], bonus + tail);
    TabFreeJoin(nums, [""] + (bonus + tail));
    TabFreeJoin([d.date], nums + ([""] + (bonus + tail)));
  }

  /** No string of `ps` holds a tab. */
  predicate TabFree(ps: seq<string>) {
    forall i :: 0 <= i < |ps| ==> '\t' !in ps[i]
  }

  lemma TabFreeJoin(a: seq<string>, b: seq<string>)
    requires TabFree(a) && TabFree(b)
    ensures TabFree(a + b)
  {
    forall i | 0 <= i < |a + b| ensures '\t' !in (a + b)[i] {
      if i >= |a| {
        assert (a + b)[i] == b[i - |a|];
      }
    }
  }

  lemma DecimalHasNoTab(n: int)
    ensures '\t' !in IntToString(n)
  {
    var s := IntToString(n);
    forall i | 0 <= i < |s| ensures s[i] != '\t' {
    }
  }

  /**
   * Cutting a line at its tabs gives back its fields, so a draw with a bonus ball has two
   * more fields than one without, and the line shows a bonus ball exactly when it is positive.
   */
  lemma LineFields(d: Draw)
    requires '\t' !in d.date
    ensures NumberUtils.Pieces(DELIMITER, Serialize(d)) == Fields(d)
    ensures |Fields(d)| == |d.numbers| + (if d.bonusBall > 0 then 8 else 6)
  {
    SerializeFields(d);
    FieldsFree(d);
    NumberUtils.PiecesOfJoin('\t', Fields(d));
  }

  /** The text after the first '$', or all of it when there is none. */
  function AfterDollar(s: string): (r: string)
    ensures '$' !in s ==> r == s
    ensures '$' in s ==> |r| < |s| && r == s[|s| - |r|..] && s[|s| - |r| - 1] == '$' && '$' !in s[..|s| - |r| - 1]
  {
    if CharIndex(s, '$') != -1 then s[CharIndex(s, '$') + 1..] else s
  }

  /** What `Draw.parseInt` and `Draw.parseLong` read: the amount after the first '$', commas dropped. */
  function Amount(s: string): string {
    RemoveAll(AfterDollar(s), ',')
  }

  /** `Draw.parseInt`; `None` for the `NumberFormatException`. Its console echo is left out. */
  method ParseInt(theText: string) returns (r: Option<int>)
    ensures r == JavaNumbers.ParseInt(Amount(theText))
  {
    var result := theText;
    if CharIndex(result, '$') != -1 {
      result := result[CharIndex(result, '$') + 1..];
    }
    result := NumberUtils.RemoveCommas(result);
    r := JavaNumbers.ParseInt(result);
  }

  /** `Draw.parseLong`; `None` for the `NumberFormatException`. */
  method ParseLong(theText: string) returns (r: Option<int>)
    ensures r == JavaNumbers.ParseLong(Amount(theText))
  {
    var result := theText;
    if CharIndex(result, '$') != -1 {
      result := result[CharIndex(result, '$') + 1..];
    }
    result := NumberUtils.RemoveCommas(result);
    r := JavaNumbers.ParseLong(result);
  }

  /**
   * A caption, a '$' and an amount with commas anywhere among its digits is read as the
   * amount. `NumberUtils.parseCurrency`, by contrast, drops a '$' only at the very start.
   */
  lemma AmountAfterLabel(caption: string, grouped: string, n: int)
    requires '$' !in caption && 0 <= n
    requires RemoveAll(grouped, ',') == IntToString(n)
    ensures Amount(caption + "$" + grouped) == IntToString(n)
    ensures IsLong(n) ==> JavaNumbers.ParseLong(Amount(caption + "$" + grouped)) == Some(n)
    ensures IsInt(n) ==> JavaNumbers.ParseInt(Amount(caption + "$" + grouped)) == Some(n)
  {
    var s := caption + "$" + grouped;
    CharIndexAfter(caption, '$', grouped);
    assert s[|caption| + 1..] == grouped;
    if IsLong(n) {
      ParseLongOfString(n);
    }
    if IsInt(n) {
      ParseIntOfString(n);
    }
  }

  /**
   * `parseDate`: drop everything up to the first blank and then the first comma, as in
   * "Wed Nov 14, 2012" to "Nov 14 2012". With no comma `substring(0, -1)` throws: `None`.
   */
  function ParseDate(s: string): (r: Option<string>)
    ensures r.None? <==> ',' !in s[CharIndex(s, ' ') + 1..]
    ensures r.Some? ==> |r.value| == |s| - CharIndex(s, ' ') - 2
  {
    var rest := s[CharIndex(s, ' ') + 1..];
    var comma := CharIndex(rest, ',');
    if comma == -1 then None else Some(rest[..comma] + rest[comma + 1..])
  }

  /** A day name, a blank, and a date with one comma read as the date without its comma. */
  lemma ParseDateOf(dayName: string, monthDay: string, year: string)
    requires ' ' !in dayName && ',' !in monthDay
    ensures ParseDate(dayName + " " + monthDay + "," + year) == Some(monthDay + year)
  {
    var s := dayName + " " + monthDay + "," + year;
    CharIndexAfter(dayName, ' ', monthDay + "," + year);
    assert s == dayName + [' '] + (monthDay + "," + year);
    var rest := s[|dayName| + 1..];
    assert rest == monthDay + [','] + year;
    CharIndexAfter(monthDay, ',', year);
    assert rest[..|monthDay|] == monthDay && rest[|monthDay| + 1..] == year;
  }

  /** With no comma anywhere the date cannot be read. */
  lemma ParseDateNoComma(s: string)
    requires ',' !in s
    ensures ParseDate(s) == None
  {
    var k := CharIndex(s, ' ') + 1;
    var rest := s[k..];
    SuffixAvoids(s, k, ',');
    assert CharIndex(rest, ',') == -1;
  }

  lemma SuffixAvoids(s: string, k: int, c: char)
    requires c !in s && 0 <= k <= |s|
    ensures c !in s[k..]
  {
    forall i | 0 <= i < |s| - k ensures s[k..][i] != c {
      assert s[k..][i] == s[k + i];
    }
  }
}
