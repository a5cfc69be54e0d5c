/**
 * `analyzer.GetDraws`: reads the draws of one game out of its data file, keeping those that
 * match the user's jackpot and payout settings. The file is given as its text, read token by
 * token the way `java.util.Scanner` does, and its line count `dataFileLength` as a number.
 */
module DrawSource {
  import opened Wrappers
  import opened JavaNumbers
  import opened Lottery
  import opened Draws
  import NumberUtils

  /** `MIN_DRAWS_TO_COUNT`: a positive count below this is raised to it. */
  const MIN_DRAWS_TO_COUNT := 15

  /** The text `IF_JACKPOT_WINNER` the jackpot field is compared with. */
  const IF_JACKPOT_WINNER := "TRUE"

  /** The number of draws to read once a requested count meets the data file's length. */
  function Clamp(requested: int, fileLength: int): (n: int)
    ensures n == requested || n == MIN_DRAWS_TO_COUNT || n == fileLength
    ensures MIN_DRAWS_TO_COUNT <= requested <= fileLength ==> n == requested
    ensures 0 < requested < MIN_DRAWS_TO_COUNT ==> n == MIN_DRAWS_TO_COUNT
  {
    if 0 < requested < MIN_DRAWS_TO_COUNT then MIN_DRAWS_TO_COUNT
    else if requested == 0 || requested > fileLength then fileLength
    else requested
  }

  /** A positive request below the minimum reads the minimum, however short the file. */
  lemma ClampRaisesToMinimum(requested: int, fileLength: int)
    requires 0 < requested < MIN_DRAWS_TO_COUNT
    ensures Clamp(requested, fileLength) == MIN_DRAWS_TO_COUNT
  {
  }

  /**
   * On a file of at least the minimum length every request of 0 or more is brought into
   * `[MIN_DRAWS_TO_COUNT, fileLength]`, and clamping again changes nothing.
   */
  lemma ClampWithinFile(requested: int, fileLength: int)
    requires requested >= 0 && fileLength >= MIN_DRAWS_TO_COUNT
    ensures MIN_DRAWS_TO_COUNT <= Clamp(requested, fileLength) <= fileLength
    ensures Clamp(Clamp(requested, fileLength), fileLength) == Clamp(requested, fileLength)
  {
  }

  /**
   * On a file shorter than the minimum, the count the first read stores (the file's length)
   * is raised to the minimum by the next read: the stored count is not stable.
   */
  lemma ClampMovesOnShortFile(fileLength: int)
    requires 0 < fileLength < MIN_DRAWS_TO_COUNT
    ensures Clamp(0, fileLength) == fileLength
    ensures Clamp(Clamp(0, fileLength), fileLength) == MIN_DRAWS_TO_COUNT
  {
  }

  /** `Character.toUpperCase` on the ASCII letters. */
  function UpperAscii(c: char): char {
    if 'a' <= c <= 'z' then (c as int - 32) as char else c
  }

  /** The ASCII upper-case form of a string. */
  function UpperCase(t: string): string {
    seq(|t|, i requires 0 <= i < |t| => UpperAscii(t[i]))
  }

  /** `token.equalsIgnoreCase(IF_JACKPOT_WINNER)`, with ASCII case folding. */
  predicate IsWinner(token: string) {
    |token| == |IF_JACKPOT_WINNER|
    && forall i :: 0 <= i < |token| ==> UpperAscii(token[i]) == IF_JACKPOT_WINNER[i]
  }

  /** A token marks a winner exactly when its upper-case form is "TRUE". */
  lemma WinnerIsUpperTrue(token: string)
    ensures IsWinner(token) <==> UpperCase(token) == IF_JACKPOT_WINNER
  {
    if UpperCase(token) == IF_JACKPOT_WINNER {
      assert forall i :: 0 <= i < |token| ==> UpperAscii(token[i]) == UpperCase(token)[i];
    }
  }

  /** The jackpot field `Draw.toString` writes reads back as the status it was written from. */
  lemma WinnerOfJackpotText(winner: bool)
    ensures IsWinner(JackpotText(winner)) == winner
  {
    if !winner {
      assert UpperAscii(JackpotText(winner)[0]) != IF_JACKPOT_WINNER[0];
    }
  }

  /** The comparison ignores case. */
  lemma WinnerIgnoresCase()
    ensures IsWinner("TRUE") && IsWinner("true") && IsWinner("True")
    ensures !IsWinner("FALSE") && !IsWinner("TRUE ") && !IsWinner("yes")
  {
    assert UpperAscii('y') != 'T';
  }

  /** What a scanner call expects of the next token: `next()`, `nextInt()` or `Long.parseLong(next())`. */
  datatype Kind = Text | Int | Long

  /** A token as the scanner call hands it over. */
  datatype Value = TextValue(text: string) | NumberValue(number: int)

  /**
   * The scanner calls for one draw, in the order the reading loop makes them: the date's three
   * words, `balls` numbers, the bonus ball when `withBonus`, the jackpot flag, the payout, the
   * range and the bonus-ball range when `withBonus`.
   */
  function Layout(balls: nat, withBonus: bool): (l: seq<Kind>)
    ensures |l| == 3 + balls + 3 + (if withBonus then 2 else 0)
  {
    [Text, Text, Text] + seq(balls, _ => Int) + (if withBonus then [Int] else [])
    + [Text, Long, Int] + (if withBonus then [Int] else [])
  }

  /** One scanner call on one token; `None` for the `InputMismatchException` or `NumberFormatException`. */
  function ReadField(token: string, k: Kind): (r: Option<Value>)
    ensures r.Some? && k == Text ==> r.value == TextValue(token)
    ensures r.Some? && k == Int ==> r.value.NumberValue? && IsInt(r.value.number)
    ensures r.Some? && k == Long ==> r.value.NumberValue? && IsLong(r.value.number)
  {
    match k
    case Text => Some(TextValue(token))
    case Int => (match JavaNumbers.ParseInt(token) case Some(n) => Some(NumberValue(n)) case None => None)
    case Long => (match JavaNumbers.ParseLong(token) case Some(n) => Some(NumberValue(n)) case None => None)
  }

  /**
   * The scanner calls of `layout` on the front of `ts`; `None` as soon as one throws, including
   * the `NoSuchElementException` of running out of tokens.
   */
  function ReadFields(ts: seq<string>, layout: seq<Kind>): (r: Option<seq<Value>>)
    ensures r.Some? ==> |r.value| == |layout| <= |ts|
  {
    if layout == [] then Some([])
    else if ts == [] then None
    else
      match (ReadField(ts[0], layout[0]), ReadFields(ts[1..], layout[1..]))
      case (Some(v), Some(vs)) => Some([v] + vs)
      case _ => None
  }

  /** The number the `k`-th call of a line handed over. */
  function NumberAt(vs: seq<Value>, k: nat): int {
    if k < |vs| && vs[k].NumberValue? then vs[k].number else 0
  }

  /** The token the `k`-th call of a line handed over. */
  function WordAt(vs: seq<Value>, k: nat): string {
    if k < |vs| && vs[k].TextValue? then vs[k].text else ""
  }

  /** The `n` numbers of a line from its `from`-th call on. */
  function NumbersAt(vs: seq<Value>, from: nat, n: nat): (r: seq<int>)
    ensures |r| == n && forall i :: 0 <= i < n ==> r[i] == NumberAt(vs, from + i)
  {
    if n == 0 then [] else NumbersAt(vs, from, n - 1) + [NumberAt(vs, from + n - 1)]
  }

  /**
   * The draw the values of one line make: the date's three words joined by blanks, then the
   * fields in the order of `Layout(balls, withBonus)`; without a bonus ball both bonus fields
   * are 0, as the constructor `Draw(date, numbers, winner, payout, range)` sets them.
   */
  function ToDraw(vs: seq<Value>, balls: nat, withBonus: bool): Draw {
    var at := 3 + balls + (if withBonus then 1 else 0);
    Draw(WordAt(vs, 0) + " " + WordAt(vs, 1) + " " + WordAt(vs, 2),
         NumbersAt(vs, 3, balls),
         if withBonus then NumberAt(vs, 3 + balls) else 0,
         IsWinner(WordAt(vs, at)), NumberAt(vs, at + 1), NumberAt(vs, at + 2),
         if withBonus then NumberAt(vs, at + 3) else 0)
  }

  /** `addThisDraw`: a jackpot winner when only those count, and a payout at least the minimum. */
  predicate Kept(d: Draw, jackpotStatus: bool, minPayout: int) {
    (!jackpotStatus || d.jackpotWinner) && d.payout >= minPayout
  }

  /**
   * The draws kept among the next `n` lines of the tokens `ts`, in file order; `None` when a
   * scanner call on one of those lines throws.
   */
  function ReadFrom(ts: seq<string>, n: nat, balls: nat, withBonus: bool,
                    jackpotStatus: bool, minPayout: int): Option<seq<Draw>>
  {
    if n == 0 then Some([])
    else
      match ReadFields(ts, Layout(balls, withBonus))
      case None => None
      case Some(vs) =>
        match ReadFrom(ts[|vs|..], n - 1, balls, withBonus, jackpotStatus, minPayout)
        case None => None
        case Some(later) =>
          var d := ToDraw(vs, balls, withBonus);
          Some((if Kept(d, jackpotStatus, minPayout) then [d] else []) + later)
  }

  /** What the reading loop returns for `count` lines, a count of 0 or below reading none. */
  function Drawn(ts: seq<string>, count: int, balls: nat, withBonus: bool,
                 jackpotStatus: bool, minPayout: int): Option<seq<Draw>>
  {
    ReadFrom(ts, if count > 0 then count else 0, balls, withBonus, jackpotStatus, minPayout)
  }

  /** One line read off the front: its kept draw, then the lines after it. */
  lemma ReadFromNext(ts: seq<string>, n: nat, balls: nat, withBonus: bool,
                     jackpotStatus: bool, minPayout: int)
    requires n > 0 && ReadFields(ts, Layout(balls, withBonus)).Some?
    ensures |Layout(balls, withBonus)| <= |ts|
    ensures ReadFrom(ts, n, balls, withBonus, jackpotStatus, minPayout).Some?
      == ReadFrom(ts[|Layout(balls, withBonus)|..], n - 1, balls, withBonus, jackpotStatus, minPayout).Some?
    ensures ReadFrom(ts, n, balls, withBonus, jackpotStatus, minPayout).Some? ==>
      ReadFrom(ts, n, balls, withBonus, jackpotStatus, minPayout).value
      == (var d := ToDraw(ReadFields(ts, Layout(balls, withBonus)).value, balls, withBonus);
          if Kept(d, jackpotStatus, minPayout) then [d] else [])
         + ReadFrom(ts[|Layout(balls, withBonus)|..], n - 1, balls, withBonus, jackpotStatus, minPayout).value
  {
  }

  /** Every draw returned passes `addThisDraw`, and no more than one per line read is returned. */
  lemma {:induction false} ReadFromKept(ts: seq<string>, n: nat, balls: nat, withBonus: bool,
                                        jackpotStatus: bool, minPayout: int)
    requires ReadFrom(ts, n, balls, withBonus, jackpotStatus, minPayout).Some?
    ensures |ReadFrom(ts, n, balls, withBonus, jackpotStatus, minPayout).value| <= n
    ensures forall d :: d in ReadFrom(ts, n, balls, withBonus, jackpotStatus, minPayout).value ==>
      Kept(d, jackpotStatus, minPayout)
  {
    if n > 0 {
      var layout := Layout(balls, withBonus);
      ReadFromNext(ts, n, balls, withBonus, jackpotStatus, minPayout);
      ReadFromKept(ts[|layout|..], n - 1, balls, withBonus, jackpotStatus, minPayout);
    }
  }

  /**
   * Reading `n` lines takes `n` times the tokens of one: with fewer tokens than that the
   * scanner runs out (`NoSuchElementException`) and nothing is returned.
   */
  lemma {:induction false} ReadFromNeedsTokens(ts: seq<string>, n: nat, balls: nat, withBonus: bool,
                                               jackpotStatus: bool, minPayout: int)
    requires |ts| < n * |Layout(balls, withBonus)|
    ensures ReadFrom(ts, n, balls, withBonus, jackpotStatus, minPayout).None?
  {
    var layout := Layout(balls, withBonus);
    assert n > 0;
    if ReadFields(ts, layout).Some? {
      ReadFromNext(ts, n, balls, withBonus, jackpotStatus, minPayout);
      assert |ts[|layout|..]| < (n - 1) * |layout|;
      ReadFromNeedsTokens(ts[|layout|..], n - 1, balls, withBonus, jackpotStatus, minPayout);
    }
  }

  /** `done` followed by what `now` yields is `all`; both fail together. */
  ghost predicate Completes<T>(all: Option<seq<T>>, done: seq<T>, now: Option<seq<T>>) {
    all.Some? == now.Some? && (all.Some? ==> all.value == done + now.value)
  }

  lemma Advance<T>(all: Option<seq<T>>, done: seq<T>, now: Option<seq<T>>, kept: seq<T>, later: Option<seq<T>>)
    requires Completes(all, done, now)
    requires now.Some? == later.Some? && (now.Some? ==> now.value == kept + later.value)
    ensures Completes(all, done + kept, later)
  {
  }

  lemma AppendEmpty<T>(s: seq<T>)
    ensures s + [] == s
  {
  }

  /** Reading one field more after a prefix of the layout. */
  lemma {:induction false} ReadFieldsSnoc(ts: seq<string>, layout: seq<Kind>, k: Kind)
    requires |layout| < |ts|
    ensures ReadFields(ts, layout + [k]) ==
      (match (ReadFields(ts, layout), ReadField(ts[|layout|], k))
       case (Some(vs), Some(v)) => Some(vs + [v])
       case _ => None)
  {
    if layout == [] {
      assert [] + [k] == [k] && [k][1..] == [];
      assert ReadFields(ts[1..], []) == Some([]);
      match ReadField(ts[0], k)
      case Some(v) => assert [v] + [] == [] + [v];
      case None =>
    } else {
      assert (layout + [k])[1..] == layout[1..] + [k];
      ReadFieldsSnoc(ts[1..], layout[1..], k);
      match (ReadField(ts[0], layout[0]), ReadFields(ts[1..], layout[1..]), ReadField(ts[|layout|], k))
      case (Some(v), Some(vs), Some(w)) => assert [v] + (vs + [w]) == ([v] + vs) + [w];
      case _ =>
    }
  }

  /** A layout that reads through reads through each of its prefixes. */
  lemma {:induction false} ReadFieldsPrefix(ts: seq<string>, layout: seq<Kind>, n: nat)
    requires n <= |layout| && ReadFields(ts, layout).Some?
    ensures ReadFields(ts, layout[..n]).Some?
  {
    if n > 0 {
      assert layout[..n][1..] == layout[1..][..n - 1];
      ReadFieldsPrefix(ts[1..], layout[1..], n - 1);
    }
  }

  /** The scanner calls of one loop round: the values of the line at the front of `ts`, one call per field. */
  method NextValues(ts: seq<string>, layout: seq<Kind>) returns (r: Option<seq<Value>>)
    ensures r == ReadFields(ts, layout)
  {
    if |ts| < |layout| {
      return None;
    }
    var values: seq<Value> := [];
    var k := 0;
    while k < |layout|
      invariant 0 <= k <= |layout|
      invariant ReadFields(ts, layout[..k]) == Some(values)
    {
      assert layout[..k + 1] == layout[..k] + [layout[k]];
      ReadFieldsSnoc(ts, layout[..k], layout[k]);
      var field := ReadField(ts[k], layout[k]);
      if field.None? {
        if ReadFields(ts, layout).Some? {
          ReadFieldsPrefix(ts, layout, k + 1);
        }
        return None;
      }
      values := values + [field.value];
      k := k + 1;
    }
    assert layout[..k] == layout;
    r := Some(values);
  }

  /**
   * The loop of either reading method: `count` lines read in turn off the scanner, the draw
   * of each kept or dropped as it is made.
   */
  method ReadCount(ts: seq<string>, count: int, balls: nat, withBonus: bool,
                   jackpotStatus: bool, minPayout: int) returns (r: Option<seq<Draw>>)
    ensures r == Drawn(ts, count, balls, withBonus, jackpotStatus, minPayout)
  {
    var layout := Layout(balls, withBonus);
    ghost var total: nat := if count > 0 then count else 0;
    ghost var all := Drawn(ts, count, balls, withBonus, jackpotStatus, minPayout);
    var draws: seq<Draw> := [];
    var rest := ts;
    var i := 0;
    while i < count
      invariant 0 <= i <= total
      invariant Completes(all, draws, ReadFrom(rest, total - i, balls, withBonus, jackpotStatus, minPayout))
    {
      var next := NextValues(rest, layout);
      if next.None? {
        return None;
      }
      var d := ToDraw(next.value, balls, withBonus);
      ReadFromNext(rest, total - i, balls, withBonus, jackpotStatus, minPayout);
      Advance(all, draws, ReadFrom(rest, total - i, balls, withBonus, jackpotStatus, minPayout),
              if Kept(d, jackpotStatus, minPayout) then [d] else [],
              ReadFrom(rest[|layout|..], total - i - 1, balls, withBonus, jackpotStatus, minPayout));
      if Kept(d, jackpotStatus, minPayout) {
        draws := draws + [d];
      } else {
        AppendEmpty(draws);
      }
      rest := rest[|layout|..];
      i := i + 1;
    }
    AppendEmpty(draws);
    r := Some(draws);
  }

  class GetDraws {
    /** `myNumberOfDrawsToCount`: 0 means all; the first read clamps it. */
    var numberOfDrawsToCount: int
    /** `myJackpotStatus`: keep only jackpot winners. */
    const jackpotStatus: bool
    /** `myPayout`: keep only draws that paid at least this. */
    const payout: int
    /** `myGame`. */
    const game: Game

    constructor(theGame: Game, theDrawsToCount: int, theJackpotStatus: bool, thePayout: int)
      ensures numberOfDrawsToCount == theDrawsToCount && jackpotStatus == theJackpotStatus
      ensures payout == thePayout && game == theGame
    {
      numberOfDrawsToCount := theDrawsToCount;
      jackpotStatus := theJackpotStatus;
      payout := thePayout;
      game := theGame;
    }

    /**
     * `getDraws`, with the data file's text and line count as parameters. The Java code has
     * one reading method per layout, identical but for the bonus fields; here the layout is
     * the game's `hasBonusBall`.
     */
    method ReadDraws(text: string, fileLength: int) returns (r: Option<seq<Draw>>)
      modifies this
      ensures numberOfDrawsToCount == Clamp(old(numberOfDrawsToCount), fileLength)
      ensures r == Drawn(NumberUtils.Tokens(text), numberOfDrawsToCount, NumberOfBalls(game),
                         HasBonusBall(game), jackpotStatus, payout)
    {
      r := ReadLayout(text, fileLength, HasBonusBall(game));
    }

    /** `getDrawsNoBonusBall` (`withBonus` false) and `getDrawsWithBonusBall` (`withBonus` true). */
    method ReadLayout(text: string, fileLength: int, withBonus: bool) returns (r: Option<seq<Draw>>)
      modifies this
      ensures numberOfDrawsToCount == Clamp(old(numberOfDrawsToCount), fileLength)
      ensures r == Drawn(NumberUtils.Tokens(text), numberOfDrawsToCount, NumberOfBalls(game),
                         withBonus, jackpotStatus, payout)
    {
      if numberOfDrawsToCount > 0 && numberOfDrawsToCount < MIN_DRAWS_TO_COUNT {
        numberOfDrawsToCount := MIN_DRAWS_TO_COUNT;
      } else if numberOfDrawsToCount == 0 || numberOfDrawsToCount > fileLength {
        numberOfDrawsToCount := fileLength;
      }
      r := ReadCount(NumberUtils.Tokens(text), numberOfDrawsToCount, NumberOfBalls(game), withBonus,
                     jackpotStatus, payout);
    }
  }
}
