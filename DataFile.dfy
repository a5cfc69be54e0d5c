/**
 * A game's data file as `Draw.toString` writes it, one draw per line, and what
 * `GetDraws` reads back from it: the scanner's tokens of a written line are the fields the
 * reading loop asks for, in the same order, so the draws come back as they were written.
 */
module DataFile {
  import opened Wrappers
  import opened JavaNumbers
  import opened Strings
  import opened Draws
  import opened DrawSource
  import NumberUtils
  import Directory

  /** The scanner's tokens of each string in turn. */
  function TokensAll(ps: seq<string>): seq<string> {
    if ps == [] then [] else NumberUtils.Tokens(ps[0]) + TokensAll(ps[1..])
  }

  lemma {:induction false} TokensAllAppend(a: seq<string>, b: seq<string>)
    ensures TokensAll(a + b) == TokensAll(a) + TokensAll(b)
  {
    if a == [] {
      assert a + b == b;
    } else {
      assert (a + b)[0] == a[0] && (a + b)[1..] == a[1..] + b;
      TokensAllAppend(a[1..], b);
    }
  }

  /** Strings joined by a whitespace character split back into the tokens of each. */
  lemma {:induction false} TokensOfJoin(ps: seq<string>, c: char)
    requires NumberUtils.IsWhitespace(c)
    ensures NumberUtils.Tokens(Join(ps, [c])) == TokensAll(ps)
  {
    if |ps| == 1 {
      assert ps[1..] == [];
    } else if |ps| > 1 {
      NumberUtils.TokensSplit(ps[0], c, Join(ps[1..], [c]));
      TokensOfJoin(ps[1..], c);
    }
  }

  /** Strings each followed by a whitespace character split back into the tokens of each. */
  lemma {:induction false} TokensOfTerminated(ps: seq<string>, c: char)
    requires NumberUtils.IsWhitespace(c)
    ensures NumberUtils.Tokens(Terminated(ps, [c])) == TokensAll(ps)
  {
    if ps != [] {
      NumberUtils.TokensSplit(ps[0], c, Terminated(ps[1..], [c]));
      TokensOfTerminated(ps[1..], c);
    }
  }

  predicate Word(w: string) {
    |w| > 0 && forall i :: 0 <= i < |w| ==> !NumberUtils.IsWhitespace(w[i])
  }

  /** Words are their own tokens. */
  lemma {:induction false} TokensAllOfWords(ws: seq<string>)
    requires forall i :: 0 <= i < |ws| ==> Word(ws[i])
    ensures TokensAll(ws) == ws
  {
    if ws != [] {
      NumberUtils.TokensOfWord(ws[0]);
      TokensAllOfWords(ws[1..]);
    }
  }

  lemma DecimalIsWord(n: int)
    ensures Word(IntToString(n))
  {
  }

  lemma PaddedAreWords(ns: seq<int>)
    ensures forall i :: 0 <= i < |PaddedAll(ns)| ==> Word(PaddedAll(ns)[i])
  {
    forall i | 0 <= i < |ns| ensures Word(Padded(ns[i])) {
      var s := Padded(ns[i]);
      if ns[i] < 10 {
        forall j | 0 < j < |s| ensures s[j] == IntToString(ns[i])[j - 1] {
        }
      }
    }
  }

  /** The tokens of the fields after the balls: the scanner skips the empty field. */
  function TailTokens(d: Draw): seq<string> {
    [JackpotText(d.jackpotWinner), IntToString(d.payout), IntToString(d.numberRange)]
    + (if d.bonusBall > 0 then [IntToString(d.bonusBallRange)] else [])
  }

  /** The tokens the scanner sees in the line of `d`: the empty fields between tabs vanish. */
  function RecordTokens(d: Draw): seq<string> {
    NumberUtils.Tokens(d.date) + (PaddedAll(d.numbers) + (BonusFields(d) + TailTokens(d)))
  }

  lemma TokensAllCons(p: string, rest: seq<string>)
    ensures TokensAll([p] + rest) == NumberUtils.Tokens(p) + TokensAll(rest)
  {
    assert ([p] + rest)[1..] == rest;
  }

  /** The tokens of fields shaped like a draw's line: a first field, words, an empty field, words, the rest. */
  lemma TokensOfFieldsShape(a: string, p: seq<string>, b: seq<string>, t: seq<string>)
    requires forall i :: 0 <= i < |p| ==> Word(p[i])
    requires forall i :: 0 <= i < |b| ==> Word(b[i])
    ensures TokensAll([a] + (p + ([""] + (b + t)))) == NumberUtils.Tokens(a) + (p + (b + TokensAll(t)))
  {
    var bt := TokensAll(b + t);
    assert bt == b + TokensAll(t) by {
      TokensAllAppend(b, t);
      TokensAllOfWords(b);
    }
    assert TokensAll([""] + (b + t)) == bt by {
      TokensAllCons("", b + t);
      assert NumberUtils.Tokens("") == [];
    }
    assert TokensAll(p + ([""] + (b + t))) == p + bt by {
      TokensAllAppend(p, [""] + (b + t));
      TokensAllOfWords(p);
    }
    TokensAllCons(a, p + ([""] + (b + t)));
  }

  /** The tokens of a word, an empty field, then words: the words. */
  lemma TokensOfTailShape(j: string, rest: seq<string>)
    requires Word(j) && forall i :: 0 <= i < |rest| ==> Word(rest[i])
    ensures TokensAll([j] + ([""] + rest)) == [j] + rest
  {
    assert TokensAll([""] + rest) == rest by {
      TokensAllCons("", rest);
      assert NumberUtils.Tokens("") == [];
      TokensAllOfWords(rest);
    }
    TokensAllCons(j, [""] + rest);
    NumberUtils.TokensOfWord(j);
  }

  lemma JackpotIsWord(winner: bool)
    ensures Word(JackpotText(winner))
  {
  }

  lemma TailFieldsTokens(d: Draw)
    ensures TokensAll(TailFields(d)) == TailTokens(d)
  {
    var rest := [IntToString(d.payout), IntToString(d.numberRange)]
      + (if d.bonusBall > 0 then [IntToString(d.bonusBallRange)] else []);
    assert TailFields(d) == [JackpotText(d.jackpotWinner)] + ([""] + rest);
    JackpotIsWord(d.jackpotWinner);
    DecimalIsWord(d.payout);
    DecimalIsWord(d.numberRange);
    DecimalIsWord(d.bonusBallRange);
    TokensOfTailShape(JackpotText(d.jackpotWinner), rest);
  }

  lemma FieldsTokens(d: Draw)
    ensures TokensAll(Fields(d)) == RecordTokens(d)
  {
    PaddedAreWords(d.numbers);
    DecimalIsWord(d.bonusBall);
    TokensOfFieldsShape(d.date, PaddedAll(d.numbers), BonusFields(d), TailFields(d));
    TailFieldsTokens(d);
  }

  /** The scanner splits the line `toString` writes into the line's tokens. */
  lemma LineTokens(d: Draw)
    ensures NumberUtils.Tokens(Serialize(d)) == RecordTokens(d)
  {
    SerializeFields(d);
    assert DELIMITER == ['\t'];
    TokensOfJoin(Fields(d), '\t');
    FieldsTokens(d);
  }

  /** Each token reads, with the call its place in the layout makes, as the value at that place. */
  ghost predicate ReadsAs(ts: seq<string>, layout: seq<Kind>, vs: seq<Value>) {
    |ts| == |layout| == |vs| && forall i :: 0 <= i < |ts| ==> ReadField(ts[i], layout[i]) == Some(vs[i])
  }

  lemma ReadsAsAppend(ts1: seq<string>, l1: seq<Kind>, vs1: seq<Value>,
                      ts2: seq<string>, l2: seq<Kind>, vs2: seq<Value>)
    requires ReadsAs(ts1, l1, vs1) && ReadsAs(ts2, l2, vs2)
    ensures ReadsAs(ts1 + ts2, l1 + l2, vs1 + vs2)
  {
    forall i | 0 <= i < |ts1| + |ts2|
      ensures ReadField((ts1 + ts2)[i], (l1 + l2)[i]) == Some((vs1 + vs2)[i])
    {
      if i >= |ts1| {
        assert (ts1 + ts2)[i] == ts2[i - |ts1|] && (l1 + l2)[i] == l2[i - |ts1|];
        assert (vs1 + vs2)[i] == vs2[i - |ts1|];
      }
    }
  }

  /** Tokens that read one by one read as a line, whatever follows them. */
  lemma {:induction false} ReadFieldsOf(ts: seq<string>, rest: seq<string>, layout: seq<Kind>, vs: seq<Value>)
    requires ReadsAs(ts, layout, vs)
    ensures ReadFields(ts + rest, layout) == Some(vs)
  {
    if layout != [] {
      assert (ts + rest)[0] == ts[0] && (ts + rest)[1..] == ts[1..] + rest;
      assert ReadsAs(ts[1..], layout[1..], vs[1..]) by {
        forall i | 0 <= i < |ts| - 1 ensures ReadField(ts[1..][i], layout[1..][i]) == Some(vs[1..][i]) {
          assert ts[1..][i] == ts[i + 1] && layout[1..][i] == layout[i + 1] && vs[1..][i] == vs[i + 1];
        }
      }
      ReadFieldsOf(ts[1..], rest, layout[1..], vs[1..]);
      assert [vs[0]] + vs[1..] == vs;
    }
  }

  /** The values the calls of the loop hand over for a written draw. */
  function NumberValues(ns: seq<int>): (vs: seq<Value>)
    ensures |vs| == |ns| && forall i :: 0 <= i < |ns| ==> vs[i] == NumberValue(ns[i])
  {
    if ns == [] then [] else [NumberValue(ns[0])] + NumberValues(ns[1..])
  }

  function DateValues(d: Draw): seq<Value> {
    var ws := NumberUtils.Tokens(d.date);
    seq(|ws|, i requires 0 <= i < |ws| => TextValue(ws[i]))
  }

  function BonusValues(d: Draw): seq<Value> {
    if d.bonusBall > 0 then [NumberValue(d.bonusBall)] else []
  }

  function TailValues(d: Draw): seq<Value> {
    [TextValue(JackpotText(d.jackpotWinner)), NumberValue(d.payout), NumberValue(d.numberRange)]
    + (if d.bonusBall > 0 then [NumberValue(d.bonusBallRange)] else [])
  }

  function RecordValues(d: Draw): seq<Value> {
    DateValues(d) + (NumberValues(d.numbers) + (BonusValues(d) + TailValues(d)))
  }

  /**
   * A draw the reading loop of a layout gives back: a date of three words with single blanks
   * between them; the layout's number of balls, none negative, each an `int`; a bonus ball
   * exactly when the layout has one (a line without one has no bonus ball field, and
   * the constructor without one sets both bonus fields to 0); the other numbers in the
   * range the scanner call for them accepts.
   */
  ghost predicate Readable(d: Draw, balls: nat, withBonus: bool) {
    var ws := NumberUtils.Tokens(d.date);
    |ws| == 3 && d.date == ws[0] + " " + ws[1] + " " + ws[2]
    && |d.numbers| == balls
    && (forall i :: 0 <= i < balls ==> 0 <= d.numbers[i] && IsInt(d.numbers[i]))
    && (withBonus <==> d.bonusBall > 0)
    && (!withBonus ==> d.bonusBall == 0 && d.bonusBallRange == 0)
    && IsInt(d.bonusBall) && IsLong(d.payout) && IsInt(d.numberRange) && IsInt(d.bonusBallRange)
  }

  lemma DateReads(d: Draw)
    requires |NumberUtils.Tokens(d.date)| == 3
    ensures ReadsAs(NumberUtils.Tokens(d.date), [Text, Text, Text], DateValues(d))
  {
  }

  lemma BallsRead(ns: seq<int>)
    requires forall i :: 0 <= i < |ns| ==> 0 <= ns[i] && IsInt(ns[i])
    ensures ReadsAs(PaddedAll(ns), seq(|ns|, _ => Int), NumberValues(ns))
  {
    forall i | 0 <= i < |ns| ensures ReadField(Padded(ns[i]), Int) == Some(NumberValue(ns[i])) {
      if ns[i] < 10 {
        ParseZeroPadded(ns[i]);
      } else {
        ParseIntOfString(ns[i]);
      }
    }
  }

  lemma BonusReads(d: Draw, withBonus: bool)
    requires (withBonus <==> d.bonusBall > 0) && IsInt(d.bonusBall)
    ensures ReadsAs(BonusFields(d), if withBonus then [Int] else [], BonusValues(d))
  {
    if withBonus {
      ParseIntOfString(d.bonusBall);
    }
  }

  lemma TailReads(d: Draw, withBonus: bool)
    requires (withBonus <==> d.bonusBall > 0)
    requires IsLong(d.payout) && IsInt(d.numberRange) && IsInt(d.bonusBallRange)
    ensures ReadsAs(TailTokens(d), [Text, Long, Int] + (if withBonus then [Int] else []), TailValues(d))
  {
    ParseLongOfString(d.payout);
    ParseIntOfString(d.numberRange);
    if withBonus {
      ParseIntOfString(d.bonusBallRange);
    }
  }

  /** The tokens of a readable draw's line read, call by call, as the draw's values. */
  lemma RecordReads(d: Draw, balls: nat, withBonus: bool)
    requires Readable(d, balls, withBonus)
    ensures ReadsAs(RecordTokens(d), Layout(balls, withBonus), RecordValues(d))
  {
    var bonus: seq<Kind> := if withBonus then [Int] else [];
    var tail: seq<Kind> := [Text, Long, Int] + bonus;
    DateReads(d);
    BallsRead(d.numbers);
    BonusReads(d, withBonus);
    TailReads(d, withBonus);
    ReadsAsAppend(BonusFields(d), bonus, BonusValues(d), TailTokens(d), tail, TailValues(d));
    ReadsAsAppend(PaddedAll(d.numbers), seq(balls, _ => Int), NumberValues(d.numbers),
                  BonusFields(d) + TailTokens(d), bonus + tail, BonusValues(d) + TailValues(d));
    ReadsAsAppend(NumberUtils.Tokens(d.date), [Text, Text, Text], DateValues(d),
                  PaddedAll(d.numbers) + (BonusFields(d) + TailTokens(d)),
                  seq(balls, _ => Int) + (bonus + tail),
                  NumberValues(d.numbers) + (BonusValues(d) + TailValues(d)));
    LayoutShape(balls, withBonus);
  }

  lemma LayoutShape(balls: nat, withBonus: bool)
    ensures Layout(balls, withBonus) == [Text, Text, Text] + (seq(balls, _ => Int)
      + ((if withBonus then [Int] else []) + ([Text, Long, Int] + (if withBonus then [Int] else []))))
  {
  }

  /** Where the pieces of a line of values sit. */
  lemma ValuesAt(a: seq<Value>, n: seq<Value>, b: seq<Value>, t: seq<Value>)
    ensures var vs := a + (n + (b + t));
      |vs| == |a| + |n| + |b| + |t|
      && (forall i :: 0 <= i < |a| ==> vs[i] == a[i])
      && (forall i :: 0 <= i < |n| ==> vs[|a| + i] == n[i])
      && (forall i :: 0 <= i < |b| ==> vs[|a| + |n| + i] == b[i])
      && (forall i :: 0 <= i < |t| ==> vs[|a| + |n| + |b| + i] == t[i])
  {
  }

  lemma RecordValuesAt(d: Draw, balls: nat, withBonus: bool)
    requires Readable(d, balls, withBonus)
    ensures var vs, at := RecordValues(d), 3 + balls + (if withBonus then 1 else 0);
      |vs| == at + (if withBonus then 4 else 3)
      && (forall i :: 0 <= i < 3 ==> vs[i] == TextValue(NumberUtils.Tokens(d.date)[i]))
      && (forall i :: 0 <= i < balls ==> vs[3 + i] == NumberValue(d.numbers[i]))
      && (withBonus ==> vs[3 + balls] == NumberValue(d.bonusBall))
      && vs[at] == TextValue(JackpotText(d.jackpotWinner))
      && vs[at + 1] == NumberValue(d.payout) && vs[at + 2] == NumberValue(d.numberRange)
      && (withBonus ==> vs[at + 3] == NumberValue(d.bonusBallRange))
  {
    ValuesAt(DateValues(d), NumberValues(d.numbers), BonusValues(d), TailValues(d));
    assert |DateValues(d)| == 3;
    assert |BonusValues(d)| == if withBonus then 1 else 0;
  }

  /** The values a readable draw's line reads as make the draw again. */
  lemma ToDrawOfRecord(d: Draw, balls: nat, withBonus: bool)
    requires Readable(d, balls, withBonus)
    ensures ToDraw(RecordValues(d), balls, withBonus) == d
  {
    var vs := RecordValues(d);
    RecordValuesAt(d, balls, withBonus);
    WinnerOfJackpotText(d.jackpotWinner);
    var ws := NumberUtils.Tokens(d.date);
    assert WordAt(vs, 0) == ws[0] && WordAt(vs, 1) == ws[1] && WordAt(vs, 2) == ws[2];
    assert NumbersAt(vs, 3, balls) == d.numbers;
    var at := 3 + balls + (if withBonus then 1 else 0);
    var r := ToDraw(vs, balls, withBonus);
    assert r.date == d.date && r.numbers == d.numbers;
    assert r.bonusBall == d.bonusBall && r.bonusBallRange == d.bonusBallRange;
    assert WordAt(vs, at) == JackpotText(d.jackpotWinner);
    assert r.jackpotWinner == d.jackpotWinner;
    assert r.payout == d.payout && r.numberRange == d.numberRange;
  }

  /** The lines of a data file holding `ds`, in order. */
  function Lines(ds: seq<Draw>): (ls: seq<string>)
    ensures |ls| == |ds| && forall i :: 0 <= i < |ds| ==> ls[i] == Serialize(ds[i])
  {
    if ds == [] then [] else [Serialize(ds[0])] + Lines(ds[1..])
  }

  /** The tokens of the lines of `ds`, line after line. */
  function AllTokens(ds: seq<Draw>): seq<string> {
    if ds == [] then [] else RecordTokens(ds[0]) + AllTokens(ds[1..])
  }

  lemma {:induction false} TokensOfLines(ds: seq<Draw>)
    ensures TokensAll(Lines(ds)) == AllTokens(ds)
  {
    if ds != [] {
      LineTokens(ds[0]);
      assert Lines(ds)[1..] == Lines(ds[1..]);
      TokensOfLines(ds[1..]);
    }
  }

  /** The scanner's tokens of the whole file are those of its lines, one after the other. */
  lemma FileTokens(ds: seq<Draw>)
    ensures NumberUtils.Tokens(Directory.TextOf(Lines(ds))) == AllTokens(ds)
  {
    assert "\n" == ['\n'];
    TokensOfTerminated(Lines(ds), '\n');
    TokensOfLines(ds);
  }

  lemma {:induction false} AllTokensAppend(a: seq<Draw>, b: seq<Draw>)
    ensures AllTokens(a + b) == AllTokens(a) + AllTokens(b)
  {
    if a == [] {
      assert a + b == b;
    } else {
      assert (a + b)[0] == a[0] && (a + b)[1..] == a[1..] + b;
      AllTokensAppend(a[1..], b);
    }
  }

  /** A readable draw's line has one token per field of the layout. */
  lemma RecordWidth(d: Draw, balls: nat, withBonus: bool)
    requires Readable(d, balls, withBonus)
    ensures |RecordTokens(d)| == |Layout(balls, withBonus)|
  {
    RecordReads(d, balls, withBonus);
  }

  lemma MulStep(n: int, w: int)
    requires n >= 1
    ensures n * w == w + (n - 1) * w
  {
  }

  lemma {:induction false} AllTokensLength(ds: seq<Draw>, balls: nat, withBonus: bool)
    requires forall i :: 0 <= i < |ds| ==> Readable(ds[i], balls, withBonus)
    ensures |AllTokens(ds)| == |ds| * |Layout(balls, withBonus)|
  {
    if ds != [] {
      var width := |Layout(balls, withBonus)|;
      RecordWidth(ds[0], balls, withBonus);
      AllTokensLength(ds[1..], balls, withBonus);
      assert |AllTokens(ds)| == width + |AllTokens(ds[1..])|;
      MulStep(|ds|, width);
    }
  }

  /** The draws of `ds` that `addThisDraw` lets through, in file order. */
  function Selected(ds: seq<Draw>, jackpotStatus: bool, minPayout: int): (r: seq<Draw>)
    ensures |r| <= |ds|
  {
    if ds == [] then []
    else (if Kept(ds[0], jackpotStatus, minPayout) then [ds[0]] else []) + Selected(ds[1..], jackpotStatus, minPayout)
  }

  /** A readable draw's line, whatever follows it, reads as the draw's values. */
  lemma RecordThenRest(d: Draw, later: seq<string>, balls: nat, withBonus: bool)
    requires Readable(d, balls, withBonus)
    ensures |RecordTokens(d)| == |Layout(balls, withBonus)|
    ensures ReadFields(RecordTokens(d) + later, Layout(balls, withBonus)) == Some(RecordValues(d))
  {
    RecordReads(d, balls, withBonus);
    ReadFieldsOf(RecordTokens(d), later, Layout(balls, withBonus), RecordValues(d));
  }

  lemma SomeOf<T>(o: Option<T>, v: T)
    requires o.Some? && o.value == v
    ensures o == Some(v)
  {
  }

  /** Reading the line of a readable draw keeps or drops that draw, then goes on with what follows. */
  lemma ReadRecord(d: Draw, later: seq<string>, n: nat, balls: nat, withBonus: bool,
                   jackpotStatus: bool, minPayout: int)
    requires Readable(d, balls, withBonus) && n > 0
    ensures ReadFrom(RecordTokens(d) + later, n, balls, withBonus, jackpotStatus, minPayout).Some?
      == ReadFrom(later, n - 1, balls, withBonus, jackpotStatus, minPayout).Some?
    ensures ReadFrom(RecordTokens(d) + later, n, balls, withBonus, jackpotStatus, minPayout).Some? ==>
      ReadFrom(RecordTokens(d) + later, n, balls, withBonus, jackpotStatus, minPayout).value
      == (if Kept(d, jackpotStatus, minPayout) then [d] else [])
         + ReadFrom(later, n - 1, balls, withBonus, jackpotStatus, minPayout).value
  {
    var ts := RecordTokens(d) + later;
    RecordThenRest(d, later, balls, withBonus);
    assert ts[|Layout(balls, withBonus)|..] == later;
    ReadFromNext(ts, n, balls, withBonus, jackpotStatus, minPayout);
    ToDrawOfRecord(d, balls, withBonus);
  }

  /** Reading as many lines as were written, from a file of readable draws, gives them back filtered. */
  lemma {:induction false} ReadWritten(ds: seq<Draw>, rest: seq<string>, balls: nat, withBonus: bool,
                                       jackpotStatus: bool, minPayout: int)
    requires forall i :: 0 <= i < |ds| ==> Readable(ds[i], balls, withBonus)
    ensures ReadFrom(AllTokens(ds) + rest, |ds|, balls, withBonus, jackpotStatus, minPayout)
         == Some(Selected(ds, jackpotStatus, minPayout))
  {
    if ds != [] {
      var later := AllTokens(ds[1..]) + rest;
      Assoc(RecordTokens(ds[0]), AllTokens(ds[1..]), rest);
      ReadRecord(ds[0], later, |ds|, balls, withBonus, jackpotStatus, minPayout);
      ReadWritten(ds[1..], rest, balls, withBonus, jackpotStatus, minPayout);
      SomeOf(ReadFrom(AllTokens(ds) + rest, |ds|, balls, withBonus, jackpotStatus, minPayout),
             Selected(ds, jackpotStatus, minPayout));
    }
  }

  /** The draws `addThisDraw` lets through are exactly the written ones that meet the settings. */
  lemma {:induction false} SelectedMembers(ds: seq<Draw>, jackpotStatus: bool, minPayout: int)
    ensures forall d :: d in Selected(ds, jackpotStatus, minPayout) <==> d in ds && Kept(d, jackpotStatus, minPayout)
  {
    if ds != [] {
      SelectedMembers(ds[1..], jackpotStatus, minPayout);
      assert forall d :: d in ds <==> d == ds[0] || d in ds[1..];
    }
  }

  lemma TakeDrop<T>(s: seq<T>, k: nat)
    requires k <= |s|
    ensures s[..k] + s[k..] == s
  {
  }

  /** Reading the first `k` of the written records. */
  lemma ReadPrefix(ds: seq<Draw>, k: nat, balls: nat, withBonus: bool, jackpotStatus: bool, minPayout: int)
    requires forall i :: 0 <= i < |ds| ==> Readable(ds[i], balls, withBonus)
    requires k <= |ds|
    ensures ReadFrom(AllTokens(ds), k, balls, withBonus, jackpotStatus, minPayout)
      == Some(Selected(ds[..k], jackpotStatus, minPayout))
  {
    var front, back := ds[..k], ds[k..];
    TakeDrop(ds, k);
    AllTokensAppend(front, back);
    assert forall i :: 0 <= i < |front| ==> Readable(front[i], balls, withBonus) by {
      forall i | 0 <= i < |front| ensures Readable(front[i], balls, withBonus) {
        assert front[i] == ds[i];
      }
    }
    ReadWritten(front, AllTokens(back), balls, withBonus, jackpotStatus, minPayout);
  }

  lemma {:induction false} MulMonotone(a: nat, b: nat, l: nat)
    requires a < b && l > 0
    ensures a * l < b * l
  {
    if b > a + 1 {
      MulMonotone(a, b - 1, l);
    }
  }

  /** Asking for more records than were written. */
  lemma ReadPastEnd(ds: seq<Draw>, k: nat, balls: nat, withBonus: bool, jackpotStatus: bool, minPayout: int)
    requires forall i :: 0 <= i < |ds| ==> Readable(ds[i], balls, withBonus)
    requires k > |ds|
    ensures ReadFrom(AllTokens(ds), k, balls, withBonus, jackpotStatus, minPayout).None?
  {
    AllTokensLength(ds, balls, withBonus);
    MulMonotone(|ds|, k, |Layout(balls, withBonus)|);
    ReadFromNeedsTokens(AllTokens(ds), k, balls, withBonus, jackpotStatus, minPayout);
  }

  /**
   * Reading `count` lines of the data file written from readable draws: the first `count`
   * draws come back, those the settings reject dropped; asking for more lines than the file
   * has makes the scanner run out, and nothing comes back.
   */
  lemma ReadBack(ds: seq<Draw>, count: int, balls: nat, withBonus: bool, jackpotStatus: bool, minPayout: int)
    requires forall i :: 0 <= i < |ds| ==> Readable(ds[i], balls, withBonus)
    ensures count <= |ds| ==>
      Drawn(NumberUtils.Tokens(Directory.TextOf(Lines(ds))), count, balls, withBonus, jackpotStatus, minPayout)
      == Some(Selected(ds[..if count > 0 then count else 0], jackpotStatus, minPayout))
    ensures count > |ds| ==>
      Drawn(NumberUtils.Tokens(Directory.TextOf(Lines(ds))), count, balls, withBonus, jackpotStatus, minPayout)
      == None
  {
    FileTokens(ds);
    var k: nat := if count > 0 then count else 0;
    if k <= |ds| {
      ReadPrefix(ds, k, balls, withBonus, jackpotStatus, minPayout);
    } else {
      ReadPastEnd(ds, k, balls, withBonus, jackpotStatus, minPayout);
    }
  }

  /** A request of 0 reads the whole file. */
  lemma ReadWholeFile(ds: seq<Draw>, balls: nat, withBonus: bool, jackpotStatus: bool, minPayout: int)
    requires forall i :: 0 <= i < |ds| ==> Readable(ds[i], balls, withBonus)
    ensures Drawn(NumberUtils.Tokens(Directory.TextOf(Lines(ds))), Clamp(0, |ds|), balls, withBonus,
                  jackpotStatus, minPayout)
      == Some(Selected(ds, jackpotStatus, minPayout))
  {
    ReadBack(ds, |ds|, balls, withBonus, jackpotStatus, minPayout);
    assert ds[..|ds|] == ds;
  }

  /**
   * On a file of fewer lines than the minimum, a positive request below the minimum is raised
   * to the minimum and reading runs past the end of the file: nothing comes back.
   */
  lemma ShortFileReadsNothing(ds: seq<Draw>, requested: int, balls: nat, withBonus: bool,
                              jackpotStatus: bool, minPayout: int)
    requires forall i :: 0 <= i < |ds| ==> Readable(ds[i], balls, withBonus)
    requires |ds| < MIN_DRAWS_TO_COUNT && 0 < requested < MIN_DRAWS_TO_COUNT
    ensures Drawn(NumberUtils.Tokens(Directory.TextOf(Lines(ds))), Clamp(requested, |ds|), balls, withBonus,
                  jackpotStatus, minPayout).None?
  {
    ReadBack(ds, Clamp(requested, |ds|), balls, withBonus, jackpotStatus, minPayout);
  }
}
