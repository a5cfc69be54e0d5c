# JLotteryAnalyzer in Dafny

JLotteryAnalyzer reads the past draws of three games (WA Lotto, Mega Millions and PowerBall).
It then suggests numbers to play:

- the **hot** numbers, which came up most often in the counted draws;
- the **cold** numbers, which came up least often;
- the **periodic** numbers, the balls of one particular past draw;
- any custom numbers the user always wants to include.

The suggestions are merged into one set, either inclusively (everything) or exclusively (only what
at least two sources agree on). That set is then printed as a plain listing or as a **wheel**: every
combination of the game's ball count, one per line, crossed with every suggested bonus ball.

The modules follow the program's classes:

| module | what it models |
|---|---|
| `Percentages` | `analyzer.Percentage`, the exact occurrences-over-draws ratio, with its equality, hash and comparison |
| `Comparators` | the hot and cold orders on ratios, and the reverse integer comparator with its 32-bit wrap-around |
| `Algorithms` | `analyzer.Algorithims`: the frequency table, the buckets of balls with equal ratio, hot/cold selection by whole buckets, the periodic pick |
| `Combinations` | `controller.Combinations`: the sorted number arrays, the recursive wheel, the bonus-ball cross product and both text renderings |
| `Calculator` | `controller.Calculator`: the range filter, the inclusive and exclusive merge, and the wiring of `getResult` |
| `DrawSource` | `analyzer.GetDraws`: the draw-count clamp, the jackpot and payout filter, and the reading loop over the data file's tokens |
| `DataFile` | the data file as `Draw.toString` writes it, and the proof that the reading loop gets each written draw back |
| `Draws` | `analyzer.Draw`: the record, its tab-separated serialisation and the parse helpers for draw pages |
| `DrawDates` | `util.DrawStringComparator`: the date at the start of a data line and the newest-first order |
| `NumberUtils`, `ArrayUtils`, `Directory` | the leaf utilities of the same names |
| `Lottery` | the three games' constants (range, ball count, bonus-ball range) |
| `JavaNumbers`, `Strings`, `Sets`, `Wrappers` | Java `int`/`long` ranges and decimal text, the `String` methods the code calls, `HashSet` iteration, and `Option` for exceptions |

The model follows the code. Java exceptions become `None` results. Loops over arrays and lists are
methods with loop invariants, each proved equal to a specification function. The lemmas then prove
what the program promises about those functions. The main results:

- Without repetition, the wheel of n sorted numbers lists every k-subset exactly once.
  That is Binomial(n, k) lines, in dictionary order.
- With several bonus balls there is one tagged copy of the wheel per ball, in ascending ball
  order.
- The exclusive merge's remove-and-step-back loop keeps exactly the values the merged sets share.
  That is, the values held by at least two of the custom numbers and the selected picks.
- The frequency table has keys exactly 1 to the highest range. Each entry counts the draws
  covering that ball and the draws holding it.
- The hot and cold selections take whole buckets in comparator order. They stop once enough balls
  are gathered and keep only balls within the game's range.
- A draw written by `Draw.toString` is read back unchanged by the `GetDraws` reading loop.

Behaviour of the code that is easy to misread:

- **Repetition.** With repetition allowed, the code's accumulator is a set and the next start
  index stays the same. So picks collapse: two of [1, 2, 3] gives {1}, {2}, {3}, {2}, {3}, because
  the accumulator is a set and repeated picks merge into one.
  `getCombos` rejects k above the number count even with repetition on.
- **Exclusive merge.** It is not an intersection. It keeps exactly what occurs at least twice in
  the combined list, so one strategy with no custom numbers gives the empty set.
- **Listing text.** The plain listing starts "Numbers:" followed by four blanks and CR LF, not a
  bare newline.
- **Empty bonus array.** A bonus-ball wheel with no bonus balls indexes element 0 and throws. The
  model returns `None` for that input rather than excluding it.

The wheel is modelled on `src/controller/Combinations.java`. `controller/Combinations.java` is the
same algorithm; its private `sixNumbersPerLine` is the same loop as `util/ArrayUtils.java`.

## Model

| member | source | states |
|---|---|---|
| Percentages.Equals | analyzer/Percentage.java:19-28 | true exactly when numerator and denominator both match, so 1/2 and 2/4 are unequal |
| Percentages.StringHash | analyzer/Percentage.java:32-33 | `String.hashCode` stays a 32-bit int under Java's wrap-around |
| Percentages.HashCode | analyzer/Percentage.java:30-34 | the hash is a 32-bit int; a function of the two fields, so equal percentages hash alike |
| Percentages.AddOccurance | analyzer/Percentage.java:36-38 | a new value one up in both numerator and denominator (wrapping at the int limit) |
| Percentages.AddNonOccurance | analyzer/Percentage.java:40-42 | a new value with the same numerator and the denominator one up (wrapping at the int limit) |
| Percentages.CompareTo | analyzer/Percentage.java:44-54 | defined exactly when both denominators are non-zero (the divide throws otherwise), and then -1, 0 or 1 |
| Percentages.CompareToCross | analyzer/Percentage.java:44-54 | for positive denominators the sign of compareTo is the sign of a.num*b.den - b.num*a.den |
| Percentages.CompareSameDenominator | analyzer/Percentage.java:44-54 | over one common positive denominator the order is the order of the numerators |
| Percentages.CompareToAntisymmetric | analyzer/Percentage.java:51-54 | compareTo(a, b) is minus compareTo(b, a), and so p.compareTo(p) is 0 |
| Percentages.CompareToTransitive | analyzer/Percentage.java:51-54 | the order is transitive, and a 0 at the end forces 0 at both steps |
| Percentages.ZeroIncomparable | analyzer/Percentage.java:8 | ZERO (0/0) cannot be compared, from either side |
| Percentages.CompareToNotEquals | analyzer/Percentage.java:19-28 | 1/2 and 2/4 compare 0 yet are not equal: compareTo is inconsistent with equals |
| Percentages.HashCollision | analyzer/Percentage.java:30-34 | 1/23 and 12/3 hash alike though they differ |
| Percentages.OccuranceRaises | analyzer/Percentage.java:36-38 | a draw holding the ball never lowers the ratio, and keeps it equal only at 100% |
| Percentages.NonOccuranceLowers | analyzer/Percentage.java:40-42 | a draw without the ball never raises the ratio, and keeps it equal only at 0% |
| Comparators.HotCompare | util/HotComparator.java:17-19 | defined for non-zero denominators, negative exactly when the first ratio is the larger (hottest first) |
| Comparators.ColdCompare | src/util/ColdComparator.java:17-19 | defined for non-zero denominators, negative exactly when the first ratio is the smaller (coldest first) |
| Comparators.ColdIsReversedHot | src/util/ColdComparator.java:17-19 | cold compare(a, b) equals hot compare(b, a) |
| Comparators.HotByOccurrences | util/HotComparator.java:17-19 | with equal positive denominators, hot order is the sign of b.num - a.num |
| Comparators.ReverseIntegerCompare | util/ReverseIntegerComparator.java:20-22 | the 32-bit result; without overflow negative exactly when int1 > int2 and 0 exactly when equal |
| Comparators.ReverseIntegerAntisymmetric | src/util/ReverseIntegerComparator.java:22-24 | when neither subtraction overflows, compare(a, b) == -compare(b, a) |
| Comparators.ReverseIntegerOverflow | src/util/ReverseIntegerComparator.java:22-24 | with a = 1 and b = Integer.MIN_VALUE the wrapped difference has the wrong sign both ways |
| JavaNumbers.Wrap32 | util/ReverseIntegerComparator.java:21 | the int Java's subtraction leaves: in range, congruent modulo 2^32, the identity on ints |
| JavaNumbers.WrapCongruent | util/ReverseIntegerComparator.java:21 | numbers congruent modulo 2^32 wrap to the same int |
| JavaNumbers.WrapCount | analyzer/Percentage.java:37 | adding to a wrapped value and wrapping is adding and wrapping once |
| JavaNumbers.IntToString | analyzer/Percentage.java:32 | a non-empty text of digits and minus signs |
| JavaNumbers.ParseInt | util/NumberUtils.java:31 | Integer.parseInt: a value it returns is a 32-bit int |
| JavaNumbers.ParseLong | util/NumberUtils.java:21 | Long.parseLong: a value it returns is a 64-bit long |
| JavaNumbers.DigitsValueOfNat | util/NumberUtils.java:31 | the digits written for n denote n |
| JavaNumbers.ParseDecimalOfString | util/NumberUtils.java:21 | parsing the decimal of any integer gives it back |
| JavaNumbers.ParseIntOfString | util/NumberUtils.java:31 | Integer.parseInt(Integer.toString(n)) == n for every int |
| JavaNumbers.ParseLongOfString | util/NumberUtils.java:21 | Long.parseLong(Long.toString(n)) == n for every long |
| JavaNumbers.ParseDecimalBound | util/NumberUtils.java:31 | an accepted decimal of length L is below 10^L in magnitude |
| JavaNumbers.ParseZeroPadded | analyzer/Draw.java:195-197 | a ball below 10 written with a leading zero parses back to itself |
| JavaNumbers.DecimalHasNoSpace | util/NumberUtils.java:102 | the decimal of a number holds no blank, '\n' or '\r' |
| Strings.IndexOf | util/NumberUtils.java:64 | StringBuilder.indexOf: -1 or the position of an occurrence, with no occurrence before it |
| Strings.CharIndex | util/DrawStringComparator.java:18 | indexOf(char): -1 exactly when absent, else the first position holding it |
| Strings.LastCharIndex | src/util/Directory.java:24 | lastIndexOf(char): -1 exactly when absent, else a position holding it with none after |
| Strings.IndexOfChar | util/NumberUtils.java:74-76 | searching for a one-character string finds the character's first occurrence |
| Strings.RemoveAllDeleteOne | util/NumberUtils.java:43-46 | cutting out one comma does not change what is left once all commas are cut |
| Strings.JoinSnoc | util/ArrayUtils.java:16-25 | joining one more element adds the separator and the element at the end |
| Strings.JoinTerminated | util/ArrayUtils.java:16-25 | a join is the first elements each followed by the separator, then the last |
| NumberUtils.ParseLong | util/NumberUtils.java:18-26 | never negative, at most Long.MAX_VALUE; a non-zero result is what Long.parseLong returned |
| NumberUtils.ParseInteger | util/NumberUtils.java:28-36 | never negative, at most Integer.MAX_VALUE; a non-zero result is what Integer.parseInt returned |
| NumberUtils.ParseLongOfString | util/NumberUtils.java:18-26 | a written long reads back as itself when positive and as 0 otherwise |
| NumberUtils.ParseIntegerOfString | util/NumberUtils.java:28-36 | a written int reads back as itself when positive and as 0 otherwise |
| NumberUtils.DropDollar | util/NumberUtils.java:40-42 | exactly one leading '$' is dropped; any other text is unchanged |
| NumberUtils.RemoveCommas | util/NumberUtils.java:43-46 | the loop leaves the text with every comma removed and the rest in order |
| NumberUtils.ParseCurrency | util/NumberUtils.java:38-48 | Long.parseLong of the text without a leading '$' and without commas; None where it throws |
| NumberUtils.CurrencyOfGrouped | util/NumberUtils.java:38-48 | "$" plus a non-negative amount with commas anywhere reads as that amount |
| NumberUtils.WordLength | util/NumberUtils.java:52-54 | the run of non-whitespace characters that begins the text, ended by whitespace or the end |
| NumberUtils.Tokens | util/NumberUtils.java:52-54 | the Scanner's tokens are non-empty |
| NumberUtils.LeadingInts | util/NumberUtils.java:54-57 | the values of the tokens before the first that is not an int, each parsed from its token |
| NumberUtils.Zeros | util/NumberUtils.java:51 | a fresh int array: n zeros |
| NumberUtils.ParseNumbers | util/NumberUtils.java:50-59 | an array of (length + 1) / 3 slots holding the scanned ints in order and 0 after; None when they overflow it |
| NumberUtils.TwoDigits | analyzer/Draw.java:193-198 | a ball below 100 written with exactly two digits |
| NumberUtils.ParseTwoDigits | analyzer/Draw.java:193-198 | a two-digit ball parses back to itself |
| NumberUtils.TokensSplit | util/NumberUtils.java:52-54 | a whitespace character splits the tokens into those before it and those after |
| NumberUtils.TokensOfWord | util/NumberUtils.java:52-54 | a non-empty run without whitespace is one token |
| NumberUtils.TokensOfTwoDigitLine | util/NumberUtils.java:52-54 | two-digit numbers joined by blanks scan as exactly those words |
| NumberUtils.LeadingTwoDigits | util/NumberUtils.java:54-57 | the scanner reads every two-digit word as its number |
| NumberUtils.ParseNumbersOfTwoDigitLine | util/NumberUtils.java:50-59 | parseNumbers of "01 02 ..." returns exactly those numbers, filling the array |
| NumberUtils.JoinTwoDigitLength | util/NumberUtils.java:51 | L two-digit words joined by blanks are 3L - 1 long, so (length + 1) / 3 == L |
| NumberUtils.Pieces | util/NumberUtils.java:61-72 | the cut text has at least one piece |
| NumberUtils.Delimit | util/NumberUtils.java:61-72 | the loop returns exactly the pieces between occurrences of the delimiter |
| NumberUtils.DelimitChar | util/NumberUtils.java:74-76 | the char overload cuts at the one-character string |
| NumberUtils.JoinPieces | util/NumberUtils.java:61-72 | joining the pieces with the delimiter reproduces the content |
| NumberUtils.PiecesFree | util/NumberUtils.java:61-72 | no piece contains the delimiter |
| NumberUtils.PiecesOfJoin | util/NumberUtils.java:61-72 | cutting pieces that were joined at a character they do not hold gives them back |
| NumberUtils.PieceCount | util/NumberUtils.java:61-72 | cutting at a character gives one piece more than its occurrences |
| NumberUtils.JoinCount | util/NumberUtils.java:61-72 | joining L character-free pieces at a character writes it L - 1 times |
| NumberUtils.ParseCustomNumbers | util/NumberUtils.java:78-86 | the non-zero parseInteger values of the blank-separated words; all positive ints, never 0 |
| NumberUtils.SetAsString | util/NumberUtils.java:99-105 | each member written once, followed by one blank, in some iteration order of the set |
| NumberUtils.EnumeratesSnoc | util/NumberUtils.java:101-103 | visiting one new member extends an enumeration of the set |
| NumberUtils.PiecesOfTerminated | util/NumberUtils.java:61-72 | cutting character-free pieces, each ended by the character, gives them back and an empty last piece |
| NumberUtils.CustomNumbersOfSetAsString | util/NumberUtils.java:78-105 | parseCustomNumbers(setAsString(s)) == s for a set of positive ints |
| NumberUtils.ValuesOfListingPieces | util/NumberUtils.java:78-86 | the non-zero values of the decimals of an enumeration, plus an empty piece, are the set |
| NumberUtils.ParsedAll | util/NumberUtils.java:88-97 | defined exactly when every element parses, and then the values in order, one per element |
| NumberUtils.ListToArray | util/NumberUtils.java:88-97 | a fresh array of the parsed values in list order; None where parseInt throws |
| NumberUtils.ParsedAllDecimals | util/NumberUtils.java:88-97 | the decimals of ints parse back to the same ints |
| NumberUtils.ParsedAllOf | util/NumberUtils.java:88-97 | a list whose every element parses to xs[i] gives xs |
| ArrayUtils.SixNumbersPerLine | util/ArrayUtils.java:13-30 | the loop builds "none" for an empty array, else the decimals in order, ", " between, '\n' after every sixth separator |
| ArrayUtils.EntryStep | util/ArrayUtils.java:18-23 | one loop round appends the decimal, ", " and a '\n' exactly when the count reaches a multiple of six |
| ArrayUtils.NoneIffEmpty | util/ArrayUtils.java:13-30 | the text is "none" exactly when the array is empty |
| ArrayUtils.FlatPrefix | util/ArrayUtils.java:17-24 | without the line breaks, the first k entries are the decimals each followed by ", " |
| ArrayUtils.FlatLayout | util/ArrayUtils.java:16-25 | without the line breaks, the layout is the decimals joined by ", ", no trailing separator |
| ArrayUtils.Flat | util/ArrayUtils.java:16-25 | without the line breaks, a non-empty array renders as its decimals joined by ", " in array order |
| ArrayUtils.PrefixNewlines | util/ArrayUtils.java:20-23 | after k entries there are k / 6 line breaks |
| ArrayUtils.LayoutNewlines | util/ArrayUtils.java:20-23 | a non-empty list of n decimals gets (n - 1) / 6 line breaks |
| ArrayUtils.LineCount | util/ArrayUtils.java:20-23 | an n-element array renders with (n - 1) / 6 newlines |
| ArrayUtils.ArrayContains | util/ArrayUtils.java:32-39 | true exactly when some element equals the number (so false on an empty array) |
| Directory.RemoveFileExtension | src/util/Directory.java:21-28 | a prefix of the name: the name itself without '.', else the part before the last '.' (strictly shorter) |
| Directory.RemoveExtension | src/util/Directory.java:23-26 | name + "." + an extension without dots gives back name |
| Directory.RemoveOnlyLastExtension | src/util/Directory.java:24-25 | only the last extension goes: "draws.2012.txt" to "draws.2012" to "draws" (not idempotent) |
| Directory.RemoveFileExtensions | src/util/Directory.java:30-38 | the loop returns the image of the set under the string version |
| Directory.ImageAdd | src/util/Directory.java:33-36 | adding one name to the set adds its stripped name to the image |
| Directory.ExtensionsCollide | src/util/Directory.java:30-38 | "wa.txt" and "wa.csv" collapse into one name, so the image can be smaller |
| Directory.TextFileAsString | src/util/Directory.java:40-48 | the text is every line followed by '\n', in order |
| Directory.LinesOfText | src/util/Directory.java:40-48 | cutting the text at '\n' gives the lines back, then an empty remainder |
| Draws.NewDraw | analyzer/Draw.java:63-74 | the draw holds a copy of the array's contents and every other argument as given |
| Draws.NewDrawNoBonus | analyzer/Draw.java:91-101 | the draw holds a copy of the numbers, and its bonus ball and bonus range are 0 |
| Draws.NumbersArray | analyzer/Draw.java:133-135 | `numbers()` hands out a fresh array with the draw's numbers, so the caller cannot change the draw |
| Draws.PaddedAll | analyzer/Draw.java:192-198 | one written ball per number, in order, each with a '0' before anything below ten |
| Draws.BallsText | analyzer/Draw.java:192-198 | the loop writes each ball padded and followed by a tab, in order |
| Draws.ToString | analyzer/Draw.java:187-219 | date, TAB, the padded balls each with a TAB, TAB, the bonus and a TAB if bonus > 0, TRUE/FALSE, TAB TAB, payout, TAB, range, then TAB and bonus range if bonus > 0 |
| Draws.JoinTerminatedPrefix | analyzer/Draw.java:190-217 | fields each followed by the delimiter, then a join of the rest, is one join |
| Draws.TailFieldsJoin | analyzer/Draw.java:204-217 | the text after the bonus field is its fields joined by tabs, with an empty field where two tabs meet |
| Draws.BonusFieldsText | analyzer/Draw.java:200-203 | the bonus field and its tab appear exactly when the bonus ball is positive |
| Draws.AfterBallsJoin | analyzer/Draw.java:199-217 | the text after the balls is the join of an empty field, the bonus field and the tail |
| Draws.SerializeFields | analyzer/Draw.java:187-219 | the line is the draw's fields joined by tabs |
| Draws.PaddedHasNoTab | analyzer/Draw.java:193-196 | a written ball holds no tab |
| Draws.FieldsFree | analyzer/Draw.java:187-219 | when the date has no tab, no field of the line does |
| Draws.DecimalHasNoTab | analyzer/Draw.java:211-216 | a decimal holds no tab |
| Draws.LineFields | analyzer/Draw.java:187-219 | cutting the line at tabs gives the fields back: n + 8 of them with a bonus ball, n + 6 without |
| Draws.AfterDollar | analyzer/Draw.java:223-225 | the text after the first '$', or all of it when there is none |
| Draws.ParseInt | analyzer/Draw.java:221-232 | Integer.parseInt of the text after the first '$', commas removed; None where it throws |
| Draws.ParseLong | analyzer/Draw.java:234-244 | Long.parseLong of the text after the first '$', commas removed ("$1,234" gives 1234); None where it throws |
| Draws.AmountAfterLabel | analyzer/Draw.java:234-244 | a caption, '$' and an amount with commas anywhere read as the amount |
| Draws.ParseDate | analyzer/Draw.java:246-253 | None exactly when no comma follows the first blank; otherwise the text after that blank less one comma, one character shorter than that text |
| Draws.ParseDateOf | analyzer/Draw.java:246-253 | "Wed" + " " + "Jan 1" + "," + " 2014" reads as "Jan 1 2014": day name and its blank dropped, first comma removed |
| Draws.ParseDateNoComma | analyzer/Draw.java:250-251 | a text without any comma has none after its first blank either, so `substring(0, -1)` throws and there is no date |
| DrawDates.MonthFrom | util/DrawStringComparator.java:24-52 | the position of the name among the months from k on, or none of them matches |
| DrawDates.GetMonth | util/DrawStringComparator.java:24-52 | JAN..DEC give 1..12 (the name at that position), and anything else throws |
| DrawDates.MonthNames | util/DrawStringComparator.java:24-52 | every month name reads as its own number |
| DrawDates.MonthName | util/DrawStringComparator.java:24-52 | every month name is three characters without a blank |
| DrawDates.MonthsDistinct | util/DrawStringComparator.java:24-52 | no month name appears twice in the switch |
| DrawDates.Assemble | util/DrawStringComparator.java:17-22 | a date exactly when the month name is known and day and year both parse |
| DrawDates.GetDate | util/DrawStringComparator.java:17-22 | a date read by getDate has a month 1..12 |
| DrawDates.CutDate | util/DrawStringComparator.java:18-21 | the cut reads a date only between a first blank that comes before the last, and its month is 1..12 |
| DrawDates.GetDateCuts | util/DrawStringComparator.java:17-22 | a text "MMM DD YYYY" of blank-free parts is read from exactly those three parts |
| DrawDates.GetDateAt | util/DrawStringComparator.java:17-22 | getDate reads the month before the first blank, the day between the blanks and the year after the last |
| DrawDates.CutDateAt | util/DrawStringComparator.java:18-20 | cutting at found blanks reads the month, day and year from the three slices |
| DrawDates.CutFirst | util/DrawStringComparator.java:18 | the first blank is the one after a blank-free month |
| DrawDates.CutLast | util/DrawStringComparator.java:19-20 | the last blank is the one before a blank-free year |
| DrawDates.Compare | util/DrawStringComparator.java:10-15 | a result exactly when both lines start with a readable date, as the substring and parsing would not throw |
| DrawDates.DateOrder | util/DrawStringComparator.java:68-76 | without overflow, negative exactly when this date is later, 0 exactly when equal, positive exactly when earlier |
| DrawDates.DateCompareTo | util/DrawStringComparator.java:68-76 | the difference is wrapped to a 32-bit int, and a date compares 0 with itself |
| DrawDates.DateBounds | util/DrawStringComparator.java:17-22 | a date read from eleven characters has month 1..12 and day and year far inside the int range |
| DrawDates.CompareNewestFirst | util/DrawStringComparator.java:68-76 | lines sort newest first and compare 0 exactly when their dates are equal (one line per date in a sorted set) |
| DrawDates.CompareAntisymmetric | util/DrawStringComparator.java:68-76 | compare(a, b) and compare(b, a) have opposite signs |
| DrawDates.CompareTransitive | util/DrawStringComparator.java:68-76 | compare is transitive |
| DrawDates.DateOfPrefix | util/DrawStringComparator.java:12-13 | only the first eleven characters of a line take part |
| DrawDates.DateOf | util/DrawStringComparator.java:12-13 | `substring(0, 11)` throws on a line shorter than eleven characters; a date read has month 1..12 |
| DrawDates.DateTextRead | util/DrawStringComparator.java:8-22 | a line starting "MMM DD YYYY" is read as that date, whatever follows |
| DrawDates.SingleDigitDayUnreadable | util/DrawStringComparator.java:12-19 | with a one-digit day the eleven characters end inside the payload and the year does not parse |
| DrawDates.NotDecimal | util/DrawStringComparator.java:19-20 | a text with a non-digit after its first character is no number |
| Algorithms.Covers | analyzer/Algorithims.java:74-75 | the number of draws whose range reaches the ball is at most the number of draws |
| Algorithms.Hits | analyzer/Algorithims.java:81-83 | the draws where the ball came up are among those that could have held it |
| Algorithms.MaxRange | analyzer/Algorithims.java:74-79 | no draw's range exceeds it, and it is 0 for no draws |
| Algorithms.Tally | analyzer/Algorithims.java:69-87 | a ball's percentage over no draws is ZERO |
| Algorithms.MaxRangeSnoc | analyzer/Algorithims.java:74-79 | one more draw raises the highest range to its own range if that is higher |
| Algorithms.CountsSnoc | analyzer/Algorithims.java:81-87 | one more draw adds one to the ball's draws if its range covers the ball, and one to its hits if it also came up |
| Algorithms.TallySnoc | analyzer/Algorithims.java:81-87 | one more draw applies addOccurance or addNonOccurance to a covered ball and leaves others alone |
| Algorithms.TallyBeyond | analyzer/Algorithims.java:74-79 | a ball beyond every range has never been counted and would still be ZERO |
| Algorithms.FillEntries | analyzer/Algorithims.java:75-79 | after the first inner loop the keys are 1..highest range including this draw, new ones ZERO, old ones unchanged |
| Algorithms.IsHit | analyzer/Algorithims.java:82 | `arrayContains(numbers, i)` on the copied numbers, or `bonusBall == i`, says whether the ball came up (likewise line 107) |
| Algorithms.UpdateEntries | analyzer/Algorithims.java:81-87 | the second inner loop keeps the keys and steps every ball up to the draw's range (likewise lines 106-112) |
| Algorithms.CountedStep | analyzer/Algorithims.java:71-88 | after both inner loops the table is that of one more draw |
| Algorithms.Count | analyzer/Algorithims.java:67-115 | getNumberCount/getBonusBallCount build the table with keys exactly 1..highest range (empty for no draws), each the ball's tally |
| Algorithms.TallyCounts | analyzer/Algorithims.java:74-87 | entry i is (draws whose range reaches i that hold i) / (draws whose range reaches i); counters never wrap under 2^31 draws |
| Algorithms.CoveredOnce | analyzer/Algorithims.java:74-79 | every key of the table is covered by some draw, so its denominator is positive |
| Algorithms.TalliesComparable | analyzer/Algorithims.java:69-87 | every entry is hits / covers with 0 <= hits <= covers and covers >= 1, so none is ZERO and all compare |
| Algorithms.CoveredByAll | analyzer/Algorithims.java:74-87 | when every draw has the same range, a ball within it is covered by every draw |
| Algorithms.Compare | analyzer/Algorithims.java:119 | the TreeMap's comparator: defined for non-zero denominators, the sign of the rank difference |
| Algorithms.Entries | analyzer/Algorithims.java:119 | the map found through the comparator files every entry under its own key's rank |
| Algorithms.Put | analyzer/Algorithims.java:133 | TreeMap.put succeeds exactly when the key is comparable (non-zero denominator) |
| Algorithms.PutFirst | analyzer/Algorithims.java:133 | after put the first entry is the new key's rank or the old first entry |
| Algorithms.PutOrdered | analyzer/Algorithims.java:133 | put keeps the entries strictly ascending in comparator order |
| Algorithms.PutEntries | analyzer/Algorithims.java:133 | put replaces the value at the key's rank and keeps an existing comparator-equal key |
| Algorithms.EntriesAbove | analyzer/Algorithims.java:119 | a rank below the first key's is not in the map |
| Algorithms.Holders | analyzer/Algorithims.java:125-131 | exactly the keys whose percentage equals the given one |
| Algorithms.KeysWith | analyzer/Algorithims.java:123-131 | the inner loop of reverseMap collects exactly the keys whose percentage `equals` the value |
| Algorithms.BuildingStep | analyzer/Algorithims.java:122-134 | one round of the outer loop keeps the loop invariant |
| Algorithms.BuildingDone | analyzer/Algorithims.java:122-135 | at the end every value's rank is in the map, every bucket holds the balls of one percentage of that rank |
| Algorithms.ReverseMap | analyzer/Algorithims.java:117-136 | defined exactly when every percentage is comparable; the buckets are in comparator order and each holds the balls of its ratio |
| Algorithms.EntriesMembers | analyzer/Algorithims.java:119 | for sorted entries the comparator lookup finds exactly the entries of the sequence |
| Algorithms.Partition | analyzer/Algorithims.java:117-136 | without a ratio collision the buckets partition the keys and each ball sits in the bucket of its own percentage |
| Algorithms.KeyCollision | analyzer/Algorithims.java:119 | putting 2/4 after 1/2 keeps the key 1/2 and replaces its balls: the bucket {1} is lost (likewise line 133) |
| Algorithms.MaxRangeUniform | analyzer/Algorithims.java:74 | with one common range, the highest range is that range (or 0) |
| Algorithms.UniformDistinguishable | analyzer/Algorithims.java:74-87 | when every draw has the same range all denominators agree, so no two different percentages collide in the TreeMap |
| Algorithms.InRange | analyzer/Algorithims.java:233-239 | exactly the members from 1 to theMax |
| Algorithms.DropOutOfRange | analyzer/Algorithims.java:233-239 | the iterator loop removes exactly the values above theMax or not positive |
| Algorithms.FinalResult | analyzer/Algorithims.java:227-244 | the loop computes the buckets gathered in order, adding each whole while the result is short |
| Algorithms.Union | analyzer/Algorithims.java:232 | holds every ball of every bucket |
| Algorithms.GatheredInRange | analyzer/Algorithims.java:233-239 | the result never holds a value above theMax or at most 0 |
| Algorithms.GatheredPrefix | analyzer/Algorithims.java:229-242 | the result is the in-range union of a prefix of the buckets, each taken while short; if any bucket was skipped the result has at least theSize balls |
| Algorithms.ShortOfFront | analyzer/Algorithims.java:231 | being short before the first j buckets does not depend on later buckets |
| Algorithms.ShortExtend | analyzer/Algorithims.java:231 | still short after n buckets means short before n + 1 |
| Algorithms.Overshoot | analyzer/Algorithims.java:231-232 | a bucket of three taken when two were asked for is kept whole |
| Algorithms.Choose | analyzer/Algorithims.java:60-65 | count, reverse map and final result: a result exactly when all entries compare, and then the gathered buckets in comparator order |
| Algorithms.SelectionFacts | analyzer/Algorithims.java:60-65 | on fewer than 2^31 draws every pick succeeds and holds only balls from 1 to the range (likewise lines 227-244) |
| Algorithms.GetHotNumbers | analyzer/Algorithims.java:60-65 | the main-ball pick in hot order with the game's ball count and range |
| Algorithms.GetColdNumbers | analyzer/Algorithims.java:146-151 | the main-ball pick in cold order with the game's ball count and range |
| Algorithms.GetHotBonusBalls | analyzer/Algorithims.java:191-198 | the bonus pick in hot order with the bonus count and bonus range |
| Algorithms.GetColdBonusBalls | analyzer/Algorithims.java:208-215 | the bonus pick in cold order with the bonus count and bonus range |
| Algorithms.PeriodIndices | analyzer/Algorithims.java:167-171 | the record read is at index range / balls - 1: 7 for WA Lotto, 14 for Mega Millions, 10 for PowerBall |
| Algorithms.PeriodIndex | analyzer/Algorithims.java:167-169 | `weekFreq - 1` is at least 0, and the game's range holds that many plus one, but not plus two, sets of its balls |
| Algorithms.PeriodRecord | analyzer/Algorithims.java:166-171 | the record at that index, or None where the file runs out first |
| Algorithms.GetPeriodicNumbers | analyzer/Algorithims.java:164-181 | the first ball-count integers of that record's line as a set; None where the line is too short |
| Algorithms.GetPeriodicBonusBalls | analyzer/Algorithims.java:253-271 | the one integer after the balls on that record's line; None where it is missing |
| Algorithms.PeriodicOfRecord | analyzer/Algorithims.java:176-178 | on a record of the game's shape the periodic picks are its numbers and its bonus ball (likewise lines 265-268) |
| Calculator.AtMost | controller/Calculator.java:95-102 | each value keeps its multiplicity when at most max and is gone otherwise |
| Calculator.RemoveNumbersHigherThan | controller/Calculator.java:95-102 | the iterator loop removes exactly the elements above max and keeps the rest in order |
| Calculator.ListOf | controller/Calculator.java:46-47 | a list built from a set holds each member exactly once |
| Calculator.InsertElements | controller/Calculator.java:61 | inserting adds the value once and keeps every other element |
| Calculator.InsertSorted | controller/Calculator.java:61 | inserting into a sorted list keeps it sorted |
| Calculator.SortList | controller/Calculator.java:61 | `Collections.sort`: a sorted permutation of the list |
| Calculator.SortedHeads | controller/Calculator.java:61 | two sorted lists with the same elements start alike |
| Calculator.SameTails | controller/Calculator.java:61 | taking the same first element off leaves the same elements |
| Calculator.SortedUnique | controller/Calculator.java:61 | a sorted permutation is unique, so the sort's outcome does not depend on its algorithm |
| Calculator.RepeatsMembers | controller/Calculator.java:62-70 | the exclusive loop keeps exactly the values some element shares with its right-hand neighbour |
| Calculator.SortedRepeats | controller/Calculator.java:60-70 | on a sorted list a value is kept exactly when it occurs at least twice |
| Calculator.TwiceAt | controller/Calculator.java:60-70 | a value occurs at least twice exactly when two positions hold it |
| Calculator.RepeatsStep | controller/Calculator.java:62-67 | one more neighbour pair keeps the left element exactly when the two are equal |
| Calculator.KeepRepeated | controller/Calculator.java:62-70 | the loop (remove at i where neighbours differ, `i--`, then drop the last element) leaves each element equal to its right-hand neighbour, in order |
| Calculator.SplitAt | controller/Calculator.java:63-64 | the list around the loop index is what was kept, then the rest, and a removal at the index drops just that element |
| Calculator.LastDropped | controller/Calculator.java:68-70 | removing the last element leaves what the loop kept |
| Calculator.Tally | controller/Calculator.java:46-59 | a value is in at most as many sets as there are |
| Calculator.Union | controller/Calculator.java:72 | exactly the values in at least one merged set |
| Calculator.Repeated | controller/Calculator.java:60-72 | exactly the values in at least two merged sets |
| Calculator.BagTally | controller/Calculator.java:46-59 | each value occurs in the combined list once per set holding it |
| Calculator.BagSnoc | controller/Calculator.java:52-58 | `addAll` of one more set adds its members once each |
| Calculator.MergeOfList | controller/Calculator.java:60-72 | as a TreeSet, the combined list is the union; after sort and the exclusive loop it is what at least two sets hold |
| Calculator.ExclusiveWithinInclusive | controller/Calculator.java:60-72 | exclusive mode keeps nothing inclusive mode would not |
| Calculator.InclusiveHoldsAll | controller/Calculator.java:72 | inclusive mode keeps every member of every merged set |
| Calculator.TallyOne | controller/Calculator.java:60-72 | a value only one set holds is counted once |
| Calculator.TallyNone | controller/Calculator.java:60-72 | a value no set holds is counted zero times |
| Calculator.CreateGetDraws | controller/Calculator.java:104-110 | a fresh GetDraws over the game with the settings' count, jackpot flag and payout |
| Calculator.Custom | controller/Calculator.java:46-49 | the custom numbers that are at most the game's range, and no others |
| Calculator.AddAll | controller/Calculator.java:52 | appending a pick keeps the list equal, as a bag, to the sets read so far plus the pick (likewise lines 55, 58) |
| Calculator.CustomList | controller/Calculator.java:46-49 | the list starts as the custom numbers up to the range, each once |
| Calculator.HotStage | controller/Calculator.java:51-53 | when hot is selected `getDraws()` re-clamps the shared count and its pick is the hot selection of that read; a throwing read or a failed pick stops the merge, a good one is added |
| Calculator.ColdStage | controller/Calculator.java:54-56 | when cold is selected `getDraws()` re-clamps the count the hot read left and its pick is the cold selection of that read; a throwing read or a failed pick stops the merge, a good one is added |
| Calculator.PeriodicStage | controller/Calculator.java:57-59 | when periodic is selected its pick is the periodic numbers; a failed pick stops the merge, a good one is added |
| Calculator.GatherNormal | controller/Calculator.java:46-59 | one `GetDraws` serves the hot and the cold read, the cold read starting from the count the hot read stored; the list holds the custom numbers and every selected pick, once per set, unless some read or pick failed |
| Calculator.ProcessNormalGame | controller/Calculator.java:44-73 | the union of the custom numbers and the picks when inclusive, else what at least two of them hold; None when a `getDraws()` read throws or a pick fails |
| Calculator.HotBonusStage | controller/Calculator.java:79-82 | when hot is selected `getDraws()` re-clamps the shared count and its pick is the hot bonus selection of that read, added to the list; a throwing read stops the merge |
| Calculator.ColdBonusStage | controller/Calculator.java:83-86 | when cold is selected `getDraws()` re-clamps the count the hot read left and its pick is the cold bonus selection of that read, added to the list; a throwing read stops the merge |
| Calculator.PeriodicBonusStage | controller/Calculator.java:87-90 | when periodic is selected its pick is the periodic bonus ball, added to the list |
| Calculator.GatherBonus | controller/Calculator.java:77-90 | one `GetDraws` serves the hot and the cold read, the cold read starting from the count the hot read stored; the list holds every selected bonus pick, unless some read or pick failed |
| Calculator.ProcessBonusBallGame | controller/Calculator.java:75-92 | the bonus result is always the plain union of the selected picks, with no exclusive step |
| Calculator.GetResult | controller/Calculator.java:23-42 | the normal merge, and the bonus merge in a bonus game, handed to the one-set or two-set Combinations and wheeled on the game's ball count or listed; None (an exception) when a merge fails, including a second `getDraws()` that throws |
| Calculator.InclusiveKeepsPicks | controller/Calculator.java:46-72 | inclusive mode keeps the admissible custom numbers and every selected pick |
| Calculator.InclusiveKeepsSources | controller/Calculator.java:46-59 | the union of the custom numbers and the selected picks holds each of them |
| Calculator.SinglePickExclusive | controller/Calculator.java:60-72 | exclusive mode with no custom numbers and one strategy gives the empty set |
| Calculator.WheelOrListing | controller/Calculator.java:36-38 | without bonus balls the wheel on the ball count gives every ascending pick, one line each; with too few numbers, the listing |
| Calculator.NoBonusPicks | controller/Calculator.java:75-92 | with no strategy selected the bonus merge is empty |
| Calculator.TwoReadsAgree | src/analyzer/GetDraws.java:91-95 | on a file of at least 15 lines the cold read sees the same draws as a fresh read with the configured count, since the first clamp is stable |
| Calculator.ShortFileReads | src/analyzer/GetDraws.java:91-95 | on a readable file of fewer than 15 lines, a count of 0 reads the whole file, and the count it stores (the file length) makes the next read throw |
| Calculator.ShortFileColdReadFails | controller/Calculator.java:51-56 | COUNT 0 with hot and cold selected on a file of fewer than 15 lines: the hot pick succeeds, the cold read throws and the merge fails |
| Calculator.EmptyBonusWheelFails | controller/Calculator.java:30-34 | in a bonus game an empty bonus merge makes the wheel fail once there are enough numbers |
| DrawSource.ClampRaisesToMinimum | src/analyzer/GetDraws.java:91-92 | a requested count 0 < n < 15 becomes 15, however short the file |
| DrawSource.ClampWithinFile | src/analyzer/GetDraws.java:91-95 | on a file of at least 15 lines, a count of 0 or above ends between 15 and the file length, and a second clamp keeps it |
| DrawSource.ClampMovesOnShortFile | src/analyzer/GetDraws.java:91-95 | on a shorter file 0 becomes the file length, which the next read raises to 15 |
| DrawSource.Clamp | src/analyzer/GetDraws.java:91-95 | the count stays, becomes 15, or becomes the file length; a count 15..length stays and a count 1..14 becomes 15 |
| DrawSource.WinnerIsUpperTrue | src/analyzer/GetDraws.java:102 | `equalsIgnoreCase("TRUE")` holds exactly when the token's upper-case form is TRUE |
| DrawSource.WinnerOfJackpotText | src/analyzer/GetDraws.java:102 | the field written as TRUE or FALSE reads back as the status it came from (likewise line 136) |
| DrawSource.WinnerIgnoresCase | src/analyzer/GetDraws.java:30 | "TRUE", "true" and "True" mark a winner; "FALSE", "TRUE " and "yes" do not (likewise line 102) |
| DrawSource.Layout | src/analyzer/GetDraws.java:97-104 | one scanner call per field: three date words, the balls, then three more fields, and two more with a bonus ball (likewise lines 130-139) |
| DrawSource.ReadField | src/analyzer/GetDraws.java:97-104 | `next()` hands over the token; `nextInt()` an int; `Long.parseLong(next())` a long |
| DrawSource.ReadFields | src/analyzer/GetDraws.java:97-104 | the calls of one line read one value per field and need that many tokens |
| DrawSource.NumbersAt | src/analyzer/GetDraws.java:98-101 | the n numbers of the line, one per `nextInt()`, in order |
| DrawSource.ReadFromNext | src/analyzer/GetDraws.java:96-110 | one round reads the line's tokens off the front, adds its draw if kept, and goes on with the rest |
| DrawSource.ReadFromKept | src/analyzer/GetDraws.java:105-109 | every returned draw passes the jackpot and payout filter, and at most one per line read is returned |
| DrawSource.ReadFromNeedsTokens | src/analyzer/GetDraws.java:96-104 | reading more lines than the tokens hold throws (None) |
| DrawSource.ReadFieldsSnoc | src/analyzer/GetDraws.java:97-104 | one field more is read from the next token |
| DrawSource.ReadFieldsPrefix | src/analyzer/GetDraws.java:97-104 | a line that reads through reads through each prefix of its fields |
| DrawSource.NextValues | src/analyzer/GetDraws.java:97-104 | the scanner calls of one loop round give the line's values |
| DrawSource.ReadCount | src/analyzer/GetDraws.java:96-110 | the loop reads exactly count lines from the top and keeps the draws passing the filter, in file order (likewise lines 129-145) |
| DrawSource.GetDraws.constructor | src/analyzer/GetDraws.java:56-62 | the fields hold the game, the count, the jackpot flag and the payout |
| DrawSource.GetDraws.ReadDraws | src/analyzer/GetDraws.java:71-79 | `getDraws` clamps the stored count and reads with the layout of the game |
| DrawSource.GetDraws.ReadLayout | src/analyzer/GetDraws.java:87-149 | the stored count becomes its clamp, and the result is the kept draws of that many lines from the top |
| DataFile.TokensOfJoin | src/analyzer/GetDraws.java:97-104 | strings joined by a whitespace character scan as the tokens of each in turn |
| DataFile.TokensOfTerminated | src/util/Directory.java:40-48 | strings each followed by a whitespace character scan as the tokens of each in turn |
| DataFile.TokensAllOfWords | src/analyzer/GetDraws.java:97-104 | words without whitespace are their own tokens |
| DataFile.PaddedAreWords | analyzer/Draw.java:192-198 | every written ball is a word of the data file |
| DataFile.TokensOfFieldsShape | analyzer/Draw.java:187-219 | the empty field between two tabs gives no token |
| DataFile.TailFieldsTokens | analyzer/Draw.java:204-217 | the fields after the bonus scan as jackpot, payout, range and, with a bonus ball, bonus range |
| DataFile.FieldsTokens | analyzer/Draw.java:187-219 | a draw's fields scan as the date words, the balls, the bonus and the tail |
| DataFile.LineTokens | analyzer/Draw.java:187-219 | the Scanner splits the `toString` line into the draw's tokens |
| DataFile.ReadFieldsOf | src/analyzer/GetDraws.java:97-104 | tokens that read one by one read as a line of values, whatever follows them |
| DataFile.DateReads | src/analyzer/GetDraws.java:97 | the three date words read as three `next()` values |
| DataFile.BallsRead | src/analyzer/GetDraws.java:99-101 | padded non-negative balls read back through `nextInt()` as their numbers |
| DataFile.BonusReads | src/analyzer/GetDraws.java:135 | the bonus field reads through `nextInt()` exactly in a bonus-ball layout |
| DataFile.TailReads | src/analyzer/GetDraws.java:102-104 | jackpot, payout and ranges read back through `next()`, `Long.parseLong` and `nextInt()` (likewise lines 136-139) |
| DataFile.RecordReads | src/analyzer/GetDraws.java:97-104 | the tokens of a readable draw's line read, call by call, as the draw's values (likewise lines 130-139) |
| DataFile.RecordValuesAt | src/analyzer/GetDraws.java:97-104 | where the date, the balls, the bonus, jackpot, payout and ranges sit among the values (likewise lines 130-139) |
| DataFile.ToDrawOfRecord | src/analyzer/GetDraws.java:108 | the draw built from the values of a readable draw's line is that draw again (likewise line 143) |
| DataFile.Lines | analyzer/Draw.java:187-219 | one line per draw, each its `toString` |
| DataFile.TokensOfLines | src/analyzer/GetDraws.java:96-104 | the lines' tokens are the draws' tokens, line after line |
| DataFile.FileTokens | src/analyzer/GetDraws.java:89-104 | the Scanner's tokens of the whole file are those of its lines, one after another |
| DataFile.AllTokensAppend | src/analyzer/GetDraws.java:96-104 | the tokens of two runs of lines are the tokens of each |
| DataFile.RecordWidth | src/analyzer/GetDraws.java:97-104 | a readable draw's line has one token per scanner call |
| DataFile.AllTokensLength | src/analyzer/GetDraws.java:96-104 | n readable lines hold n times the calls of one line |
| DataFile.Selected | src/analyzer/GetDraws.java:105-109 | the kept draws are no more than the draws read |
| DataFile.RecordThenRest | src/analyzer/GetDraws.java:97-104 | a readable draw's line, whatever follows it, reads as the draw's values |
| DataFile.ReadRecord | src/analyzer/GetDraws.java:96-110 | reading a readable draw's line keeps or drops that draw, then goes on with what follows |
| DataFile.ReadWritten | src/analyzer/GetDraws.java:96-110 | reading as many lines as were written gives the written draws back, filtered, in file order |
| DataFile.SelectedMembers | src/analyzer/GetDraws.java:105-106 | a draw is kept exactly when it was written and is a winner when only winners count and pays at least the minimum |
| DataFile.ReadPrefix | src/analyzer/GetDraws.java:96-110 | reading k of the written lines gives the first k draws, filtered |
| DataFile.ReadPastEnd | src/analyzer/GetDraws.java:96-104 | asking for more lines than the file holds throws (None) |
| DataFile.ReadBack | src/analyzer/GetDraws.java:87-149 | from a file of written draws a count up to its length gives the first count draws filtered; a larger one throws |
| DataFile.ReadWholeFile | src/analyzer/GetDraws.java:93-94 | a request of 0 reads the whole file and gives every kept draw |
| DataFile.ShortFileReadsNothing | src/analyzer/GetDraws.java:91-92 | a file shorter than 15 lines with a request below 15 reads past its end and throws |
| Combinations.Least | src/controller/Combinations.java:50 | the chosen member is in the set and at most every other member |
| Combinations.AscendingSorted | src/controller/Combinations.java:50 | the sorted form of a set is strictly increasing, holds exactly the set's members and has the set's size |
| Combinations.MinOf | src/controller/Combinations.java:50 | the scan over a non-empty set returns its least member |
| Combinations.AscendingOf | src/controller/Combinations.java:158-162 | iterating a sorted set yields its members smallest first |
| Combinations.FillArray | src/controller/Combinations.java:43-49 | the copy loop gives a fresh array as long as the set, holding each member once |
| Combinations.Sort | src/controller/Combinations.java:50 | sorting an array of distinct numbers leaves its members in increasing order |
| Combinations.SortedArray | src/controller/Combinations.java:43-50 | copy then sort gives the set's members in increasing order |
| Combinations.WheelChoose | src/controller/Combinations.java:105-131 | without repetition the recursion from index j lists the chosen set joined to every left-element subset of the rest, those with the first number first |
| Combinations.ChooseCount | src/controller/Combinations.java:105-131 | the subset enumeration lists exactly Binomial(n, k) sets |
| Combinations.ChooseMembers | src/controller/Combinations.java:105-131 | on distinct numbers every listed set has k members drawn from the numbers |
| Combinations.ChooseComplete | src/controller/Combinations.java:105-131 | every k-subset of the numbers is listed |
| Combinations.ChooseUnique | src/controller/Combinations.java:105-131 | no set is listed twice when the numbers are distinct |
| Combinations.ChooseOrdered | src/controller/Combinations.java:105-131 | over increasing numbers the listed sets come in dictionary order of their sorted forms |
| Combinations.WheelSubsets | src/controller/Combinations.java:90-131 | without repetition the wheel of a sorted array is each k-subset exactly once, Binomial(n, k) of them, in dictionary order |
| Combinations.LastColumnShape | src/controller/Combinations.java:108-113 | the last step adds one array number at a time: every set is non-empty, within the chosen set plus the array, and has at most one member more |
| Combinations.WheelShape | src/controller/Combinations.java:105-131 | with or without repetition every listed set is non-empty, drawn from the chosen set and the array, and has at most chosen plus left members |
| Combinations.WheelWithoutRepetition | src/controller/Combinations.java:115-127 | two of [1, 2, 3] without repetition gives {1,2}, {1,3}, {2,3} |
| Combinations.WheelWithRepetition | src/controller/Combinations.java:117-121 | with repetition a number re-added to a set collapses, so two of [1, 2, 3] gives {1}, {2}, {3}, {2}, {3} |
| Combinations.Lines | src/controller/Combinations.java:155-164 | one line per combination, the i-th line printing the i-th combination |
| Combinations.SpacedTokens | src/controller/Combinations.java:159-162 | a scanner reading a wheel line sees exactly the decimals of its numbers |
| Combinations.LineTokens | src/controller/Combinations.java:157-163 | the line of a combination reads back as the decimals of its members, smallest first |
| Combinations.GroupedLength | src/controller/Combinations.java:165-176 | with several bonus balls the result has one copy of the wheel per ball |
| Combinations.GroupedLine | src/controller/Combinations.java:165-176 | line i of copy g is wheel line i followed by " | " and bonus ball g |
| Combinations.GroupedBlock | src/controller/Combinations.java:169-175 | the g-th block of the result is the original list tagged with the g-th bonus ball |
| Combinations.ComboTextFallback | src/controller/Combinations.java:91-93 | a k of 0 or less, or above the number count, falls back on the plain listing |
| Combinations.ComboTextLines | src/controller/Combinations.java:150-186 | for k in range the output is each wheel line (tagged per bonus ball when there are any) ended by CR LF, and fails only when the bonus flag is set with no bonus ball |
| Combinations.SixPerLineAvoids | util/ArrayUtils.java:13-30 | the six-per-line layout holds only digits, signs, commas, blanks, newlines and the letters of "none" |
| Combinations.ListingNamesBonusBalls | src/controller/Combinations.java:202-215 | the listing mentions "BonusBalls" exactly when the object has bonus balls |
| Combinations.AddBonusBallToList | src/controller/Combinations.java:188-194 | every line of the list gains " | " and the ball's decimal, nothing else changes |
| Combinations.LineOf | src/controller/Combinations.java:157-163 | the inner loop prints the combination's members smallest first, each followed by a space |
| Combinations.LinesOf | src/controller/Combinations.java:155-164 | the outer loop prints one line per combination in wheel order |
| Combinations.Terminate | src/controller/Combinations.java:178-181 | every line is followed by CR LF |
| Combinations.Combinations.constructor | src/controller/Combinations.java:39-51 | the number array holds the set sorted; no bonus balls and no repetition |
| Combinations.Combinations.WithBonusBalls | src/controller/Combinations.java:59-71 | both arrays hold their sets sorted; the bonus flag is set and repetition is off |
| Combinations.Combinations.SetRepetition | src/controller/Combinations.java:78-80 | only the repetition flag changes |
| Combinations.Combinations.CombosFrom | src/controller/Combinations.java:105-131 | the recursion returns the wheel of the sorted numbers from the given index and chosen set |
| Combinations.Combinations.GetCombos | src/controller/Combinations.java:90-95 | a result exactly when 1 <= k <= number count; without repetition it is each k-subset once in dictionary order |
| Combinations.Combinations.ToString | src/controller/Combinations.java:202-215 | "Numbers:" and the numbers six per line, then the bonus balls the same way when the flag is set |
| Combinations.Combinations.AddBonusBalls | src/controller/Combinations.java:165-177 | the lines unchanged without bonus flag, one tagged copy per ball otherwise, and a failure when the flag is set with no ball |
| Combinations.Combinations.GetComboOutput | src/controller/Combinations.java:150-186 | the printed wheel for k in range, the listing otherwise |
| Combinations.Combinations.GetOutput | src/controller/Combinations.java:133-141 | the wheel when the flag is set, the plain listing otherwise |

## Left out

- File and network I/O. `Scanner` over a data file is modelled as its text, split into whitespace tokens the way `Scanner.next`/`nextInt` split it; the file's line count and the counted draws are parameters. `Directory.getFileNamesFrom` lists a directory and is left out.
- The Swing user interface, the updaters that fetch draw pages, and `Settings` persistence. `Settings` is a typed record handed to `Calculator.GetResult`. The two copies of `Settings` name the inclusive key differently (`INCLUSIVE` and `ADD_RESULTS`), which the typed record does not reproduce.
- The `RAW_DATA` branch of `getResult` and `Algorithims.getRawData`, which render `BigDecimal` quotients, and `Percentage.toString`. Floating and decimal rendering is not modelled.
- Percentages.CompareTo: `BigDecimal.divide` with 34 significant digits is modelled as exact rational comparison. Two distinct quotients of 32-bit ints differ by far more than that precision can hide, so the order is the same.
- The `System.out.println` in `Draw.parseInt`'s error branch.
- Unicode: digits, whitespace and case folding are ASCII only.
- Iteration order of `HashSet` and `HashMap`: the model lets it be any order, and proves results that do not depend on it.
- `Arrays.sort` and `Collections.sort` are modelled by their outcome, the unique sorted permutation, not by their algorithm.
- Aliasing between the lists `Calculator` builds: lists are values.
- The copy constructor and getters of `Draw`: on a value datatype they are the identity.
- Calculator.GetResult: the data file reaches the merges as two independent parameters, `text` with its line count `fileLength` for the `GetDraws` reads and `records` for the periodic picks, which read the file through their own `Scanner`. Nothing ties them to one file; `DataFile.ReadBack` and `Calculator.ShortFileReads` relate them where `text` is the written form of `records`.
- Calculator.KeepRepeated: the source compares boxed `Integer`s with `!=`, which is reference inequality; the model compares values. The two agree when equal values in the merged list are one boxed object, as for autoboxed values in -128..127. Custom numbers restored from saved settings (view/GUI.java:46 `readObject`) are fresh `Integer` objects, so a restored 5 next to a picked 5 compares unequal and the source removes it where the model keeps it.
- DrawSource.ReadField: `nextInt()` and `Long.parseLong` are modelled by the plain optional-sign-and-digits syntax, so digits grouped by the default locale ("1,234"), which `Scanner.nextInt` accepts, are not read. `Draw.toString` never writes grouped digits, so the round trip is unaffected.
- Percentages.HashCode: the contract states only that the hash is a 32-bit int and depends only on the fields, not the particular value `String.hashCode` gives.
- NumberUtils.Delimit: requires a non-empty delimiter; with an empty one the source's loop never ends.
- Algorithms.ReverseMap: a `TreeMap` keyed by a comparator merges two ratios of equal value but different fields, keeping the first key and the later balls. The model reproduces this; the partition of the balls is proved only where no two equal ratios differ in their fields, which holds whenever every ball's denominator is the same.
