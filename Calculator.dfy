/**
 * `controller.Calculator`: the custom numbers and the selected hot, cold and periodic picks
 * merged into one set, either all of them (inclusive) or only what at least two of them hold
 * (exclusive), and that set wheeled or listed by `Combinations`.
 */
module Calculator {
  import opened Wrappers
  import opened Lottery
  import opened Draws
  import Algorithms
  import Combinations
  import Sets
  import Strings
  import DrawSource
  import NumberUtils
  import DataFile
  import Directory

  // ---------------------------------------------------------------------------------------------
  // The list the merge works on.

  /** The members of `xs` that are at most `max`, in their order. */
  function AtMost(xs: seq<int>, max: int): (r: seq<int>)
    ensures forall x :: multiset(r)[x] == if x <= max then multiset(xs)[x] else 0
  {
    if xs == [] then []
    else
      var init, last := xs[..|xs| - 1], xs[|xs| - 1];
      assert xs == init + [last];
      AtMost(init, max) + if last <= max then [last] else []
  }

  /** `removeNumbersHigherThan`: an iterator walks the list and removes each element above `max`. */
  method RemoveNumbersHigherThan(list: seq<int>, max: int) returns (r: seq<int>)
    ensures r == AtMost(list, max)
  {
    r := list;
    var i := 0;
    ghost var j := 0;
    while i < |r|
      invariant 0 <= i <= |r| && 0 <= j <= |list|
      invariant r[..i] == AtMost(list[..j], max) && r[i..] == list[j..]
      decreases |r| - i
    {
      assert list[..j + 1][..j] == list[..j];
      assert r[i] == list[j];
      if r[i] > max {
        r := r[..i] + r[i + 1..];
      } else {
        i := i + 1;
      }
      j := j + 1;
    }
    assert list[..j] == list;
  }

  /** A list filled from a `HashSet` (`new LinkedList<>(set)`, `addAll(set)`): each member once. */
  method ListOf(s: set<int>) returns (xs: seq<int>)
    ensures multiset(xs) == multiset(s)
  {
    xs := [];
    var rest := s;
    while rest != {}
      invariant multiset(xs) + multiset(rest) == multiset(s)
      decreases |rest|
    {
      var x := Sets.Pick(rest);
      assert multiset(rest) == multiset(rest - {x}) + multiset{x};
      xs := xs + [x];
      rest := rest - {x};
    }
  }

  predicate NonDecreasing(s: seq<int>) {
    forall i, j :: 0 <= i < j < |s| ==> s[i] <= s[j]
  }

  /** `x` put before the first element it does not exceed. */
  function Insert(x: int, s: seq<int>): seq<int> {
    if s == [] || x <= s[0] then [x] + s else [s[0]] + Insert(x, s[1..])
  }

  /** `Insert` adds `x` once and keeps everything else. */
  lemma {:induction false} InsertElements(x: int, s: seq<int>)
    ensures multiset(Insert(x, s)) == multiset(s) + multiset{x}
  {
    if s != [] && x > s[0] {
      InsertElements(x, s[1..]);
      assert s == [s[0]] + s[1..];
    }
  }

  /** Into a sorted sequence, `Insert` puts `x` in place. */
  lemma {:induction false} InsertSorted(x: int, s: seq<int>)
    requires NonDecreasing(s)
    ensures NonDecreasing(Insert(x, s))
  {
    if s != [] && x > s[0] {
      var t := Insert(x, s[1..]);
      InsertSorted(x, s[1..]);
      InsertElements(x, s[1..]);
      forall k | 0 <= k < |t| ensures s[0] <= t[k] {
        assert t[k] in multiset(t);
        if t[k] != x {
          assert t[k] in multiset(s[1..]);
        }
      }
    }
  }

  /**
   * `Collections.sort` on a list of integers, by its outcome: a sorted permutation, which
   * `SortedUnique` shows is the only one.
   */
  function SortList(s: seq<int>): (r: seq<int>)
    ensures NonDecreasing(r) && multiset(r) == multiset(s)
  {
    if s == [] then []
    else
      var t := SortList(s[1..]);
      InsertSorted(s[0], t);
      InsertElements(s[0], t);
      assert s == [s[0]] + s[1..];
      Insert(s[0], t)
  }

  /** Two non-empty sorted sequences with the same elements start alike. */
  lemma SortedHeads(a: seq<int>, b: seq<int>)
    requires NonDecreasing(a) && NonDecreasing(b) && multiset(a) == multiset(b) && a != []
    ensures b != [] && a[0] == b[0]
  {
    assert a[0] in multiset(b);
    var i :| 0 <= i < |b| && b[i] == a[0];
    assert b[0] in multiset(a);
    var j :| 0 <= j < |a| && a[j] == b[0];
  }

  /** Taking the same first element off leaves the same elements. */
  lemma SameTails(a: seq<int>, b: seq<int>)
    requires a != [] && b != [] && a[0] == b[0] && multiset(a) == multiset(b)
    ensures multiset(a[1..]) == multiset(b[1..])
  {
    assert a == [a[0]] + a[1..] && b == [b[0]] + b[1..];
    assert multiset(a) == multiset{a[0]} + multiset(a[1..]);
    assert multiset(b) == multiset{a[0]} + multiset(b[1..]);
    forall x ensures multiset(a[1..])[x] == multiset(b[1..])[x] {
      assert multiset(a)[x] == multiset{a[0]}[x] + multiset(a[1..])[x];
      assert multiset(b)[x] == multiset{a[0]}[x] + multiset(b[1..])[x];
    }
  }

  /** Two sorted sequences with the same elements are the same sequence. */
  lemma {:induction false} SortedUnique(a: seq<int>, b: seq<int>)
    requires NonDecreasing(a) && NonDecreasing(b) && multiset(a) == multiset(b)
    ensures a == b
    decreases |a|
  {
    if a != [] {
      SortedHeads(a, b);
      SameTails(a, b);
      SortedUnique(a[1..], b[1..]);
      assert a == [a[0]] + a[1..] && b == [b[0]] + b[1..];
    } else {
      assert |b| == |multiset(b)| == 0;
    }
  }

  /**
   * What the exclusive loop keeps of a list: each element equal to its right-hand neighbour,
   * in order; the last element has no neighbour and goes.
   */
  function Repeats(s: seq<int>): seq<int> {
    if |s| < 2 then []
    else Repeats(s[..|s| - 1]) + if s[|s| - 2] == s[|s| - 1] then [s[|s| - 2]] else []
  }

  /** `Repeats` holds exactly the values that some element shares with its right-hand neighbour. */
  lemma {:induction false} RepeatsMembers(s: seq<int>, x: int)
    ensures x in Repeats(s) <==> exists i :: 0 <= i < |s| - 1 && s[i] == x && s[i + 1] == x
    decreases |s|
  {
    if |s| >= 2 {
      var init := s[..|s| - 1];
      RepeatsMembers(init, x);
      if x in Repeats(s) && x !in Repeats(init) {
        assert s[|s| - 2] == x && s[|s| - 1] == x;
      }
      if exists i :: 0 <= i < |s| - 1 && s[i] == x && s[i + 1] == x {
        var i :| 0 <= i < |s| - 1 && s[i] == x && s[i + 1] == x;
        if i < |s| - 2 {
          assert init[i] == x && init[i + 1] == x;
        }
      }
    }
  }

  /** In a sorted list, a value occurs at least twice iff two neighbours hold it. */
  lemma SortedRepeats(s: seq<int>, x: int)
    requires NonDecreasing(s)
    ensures x in Repeats(s) <==> multiset(s)[x] >= 2
  {
    RepeatsMembers(s, x);
    TwiceAt(s, x);
    if multiset(s)[x] >= 2 {
      var p, q :| 0 <= p < q < |s| && s[p] == x && s[q] == x;
      assert s[p] <= s[p + 1] <= s[q];
    }
  }

  /** A value occurs at least twice iff two positions hold it. */
  lemma {:induction false} TwiceAt(s: seq<int>, x: int)
    ensures multiset(s)[x] >= 2 <==> exists p, q :: 0 <= p < q < |s| && s[p] == x && s[q] == x
    decreases |s|
  {
    if s != [] {
      var init, last := s[..|s| - 1], s[|s| - 1];
      assert s == init + [last];
      TwiceAt(init, x);
      if multiset(s)[x] >= 2 && multiset(init)[x] < 2 {
        assert last == x && multiset(init)[x] == 1;
        assert x in multiset(init);
        var p :| 0 <= p < |init| && init[p] == x;
        assert s[p] == x && s[|s| - 1] == x;
      }
      if exists p, q :: 0 <= p < q < |s| && s[p] == x && s[q] == x {
        var p, q :| 0 <= p < q < |s| && s[p] == x && s[q] == x;
        if q < |s| - 1 {
          assert init[p] == x && init[q] == x;
        } else {
          assert init[p] == x;
          assert x in multiset(init);
        }
      }
    }
  }

  /** One more neighbour pair for `Repeats`. */
  lemma RepeatsStep(s: seq<int>, m: nat)
    requires m + 1 < |s|
    ensures Repeats(s[..m + 2]) == Repeats(s[..m + 1]) + if s[m] == s[m + 1] then [s[m]] else []
  {
    assert s[..m + 2][..m + 1] == s[..m + 1];
  }

  /**
   * The exclusive step's loop: where an element differs from its right-hand neighbour it is
   * removed and `i--` keeps the index in place; afterwards the last element is removed.
   */
  method KeepRepeated(sorted: seq<int>) returns (r: seq<int>)
    ensures r == Repeats(sorted)
  {
    r := sorted;
    var i := 0;
    ghost var m := 0;
    ghost var kept := [];
    while i < |r| - 1
      invariant 0 <= m <= |sorted| && (sorted == [] ==> r == [])
      invariant sorted != [] ==> m < |sorted| && kept == Repeats(sorted[..m + 1])
      invariant r == kept + sorted[m..] && i == |kept|
      decreases |r| - i
    {
      RepeatsStep(sorted, m);
      SplitAt(kept, sorted, m);
      if r[i + 1] != r[i] {
        r := r[..i] + r[i + 1..];
        i := i - 1;
      } else {
        kept := kept + [sorted[m]];
      }
      i := i + 1;
      m := m + 1;
    }
    if r != [] {
      LastDropped(kept, sorted, m);
      r := r[..|r| - 1];
    }
  }

  /** The list the loop works on, seen around its index: what was kept, then the rest of `s`. */
  lemma SplitAt(kept: seq<int>, s: seq<int>, m: nat)
    requires m + 1 < |s|
    ensures var r := kept + s[m..];
      && r[|kept|] == s[m] && r[|kept| + 1] == s[m + 1]
      && r[..|kept|] + r[|kept| + 1..] == kept + s[m + 1..]
      && r == (kept + [s[m]]) + s[m + 1..]
  {
    var r := kept + s[m..];
    assert r[..|kept|] == kept;
    assert r[|kept| + 1..] == s[m + 1..];
    assert s[m..] == [s[m]] + s[m + 1..];
  }

  /** Once the loop reaches the last element, dropping it leaves what was kept. */
  lemma LastDropped(kept: seq<int>, s: seq<int>, m: nat)
    requires m == |s| - 1
    ensures (kept + s[m..])[..|kept + s[m..]| - 1] == kept && s[..m + 1] == s
  {
  }

  // ---------------------------------------------------------------------------------------------
  // What the merge computes, over the sets it merges.

  /** How many of the sets hold `x`. */
  function Tally(x: int, ss: seq<set<int>>): (n: nat)
    ensures n <= |ss|
  {
    if ss == [] then 0 else Tally(x, ss[..|ss| - 1]) + if x in ss[|ss| - 1] then 1 else 0
  }

  /** Everything any of the sets holds. */
  function Union(ss: seq<set<int>>): (u: set<int>)
    ensures forall x :: x in u <==> Tally(x, ss) > 0
  {
    if ss == [] then {} else Union(ss[..|ss| - 1]) + ss[|ss| - 1]
  }

  /** What at least two of the sets hold. */
  function Repeated(ss: seq<set<int>>): (r: set<int>)
    ensures forall x :: x in r <==> Tally(x, ss) >= 2
  {
    set x | x in Union(ss) && Tally(x, ss) >= 2
  }

  /** The merge: the union when inclusive, what at least two sets hold otherwise. */
  function Merge(ss: seq<set<int>>, inclusive: bool): set<int> {
    if inclusive then Union(ss) else Repeated(ss)
  }

  /** The sets together, as the one list holding each of their members once per set. */
  function Bag(ss: seq<set<int>>): multiset<int> {
    if ss == [] then multiset{} else Bag(ss[..|ss| - 1]) + multiset(ss[|ss| - 1])
  }

  lemma {:induction false} BagTally(ss: seq<set<int>>, x: int)
    ensures Bag(ss)[x] == Tally(x, ss)
    decreases |ss|
  {
    if ss != [] {
      BagTally(ss[..|ss| - 1], x);
    }
  }

  lemma BagSnoc(ss: seq<set<int>>, s: set<int>)
    ensures Bag(ss + [s]) == Bag(ss) + multiset(s)
  {
    assert (ss + [s])[..|ss|] == ss;
  }

  /**
   * A list holding each set's members once per set gives, as a `TreeSet`, the union; after the
   * exclusive step it gives what at least two sets hold.
   */
  lemma MergeOfList(list: seq<int>, ss: seq<set<int>>)
    requires multiset(list) == Bag(ss)
    ensures Combinations.Elems(list) == Merge(ss, true)
    ensures Combinations.Elems(Repeats(SortList(list))) == Merge(ss, false)
  {
    forall x ensures x in list <==> x in Union(ss) {
      BagTally(ss, x);
      assert x in list <==> x in multiset(list);
    }
    var sorted := SortList(list);
    forall x ensures x in Repeats(sorted) <==> x in Repeated(ss) {
      BagTally(ss, x);
      SortedRepeats(sorted, x);
    }
  }

  /** Exclusive mode keeps nothing the inclusive mode would not. */
  lemma ExclusiveWithinInclusive(ss: seq<set<int>>)
    ensures Merge(ss, false) <= Merge(ss, true)
  {
  }

  /** Inclusive mode keeps everything every set holds. */
  lemma {:induction false} InclusiveHoldsAll(ss: seq<set<int>>, i: int)
    requires 0 <= i < |ss|
    ensures ss[i] <= Merge(ss, true)
    decreases |ss|
  {
    if i < |ss| - 1 {
      InclusiveHoldsAll(ss[..|ss| - 1], i);
    }
  }

  /** A value only one set holds is not kept in exclusive mode. */
  lemma {:induction false} TallyOne(ss: seq<set<int>>, i: int, x: int)
    requires 0 <= i < |ss| && x in ss[i]
    requires forall j :: 0 <= j < |ss| && j != i ==> x !in ss[j]
    ensures Tally(x, ss) == 1
    decreases |ss|
  {
    var init := ss[..|ss| - 1];
    if i < |ss| - 1 {
      TallyOne(init, i, x);
    } else {
      TallyNone(init, x);
    }
  }

  lemma {:induction false} TallyNone(ss: seq<set<int>>, x: int)
    requires forall j :: 0 <= j < |ss| ==> x !in ss[j]
    ensures Tally(x, ss) == 0
    decreases |ss|
  {
    if ss != [] {
      TallyNone(ss[..|ss| - 1], x);
    }
  }

  // ---------------------------------------------------------------------------------------------
  // The settings and the picks.

  /**
   * The settings `getResult` reads, as a typed record. `count`, `jackpotOnly` and `payout` only
   * configure the `GetDraws` objects that read the data file.
   */
  datatype Settings = Settings(
    game: Game,
    customNumbers: set<int>,
    hotSelected: bool,
    coldSelected: bool,
    periodicSelected: bool,
    inclusive: bool,
    wheelResults: bool,
    count: int,
    jackpotOnly: bool,
    payout: int)

  /** `createGetDraws`: a `GetDraws` over the game with the settings' count, jackpot and payout. */
  method CreateGetDraws(s: Settings) returns (g: DrawSource.GetDraws)
    ensures fresh(g) && g.game == s.game && g.numberOfDrawsToCount == s.count
    ensures g.jackpotStatus == s.jackpotOnly && g.payout == s.payout
  {
    g := new DrawSource.GetDraws(s.game, s.count, s.jackpotOnly, s.payout);
  }

  /**
   * What one `getDraws()` call on an object `createGetDraws` built returns while the object's
   * stored count is `stored`: the call clamps that count against the file's length, then reads
   * that many lines of the data file `text`.
   */
  function ReadOf(s: Settings, text: string, fileLength: int, stored: int): Option<seq<Draw>> {
    DrawSource.Drawn(NumberUtils.Tokens(text), DrawSource.Clamp(stored, fileLength), NumberOfBalls(s.game),
                     HasBonusBall(s.game), s.jackpotOnly, s.payout)
  }

  /** The count the object stores once the hot pick, when selected, has read the draws. */
  function AfterHot(s: Settings, fileLength: int): int {
    if s.hotSelected then DrawSource.Clamp(s.count, fileLength) else s.count
  }

  /** A pick made from what a read gave: a read that throws fails the pick. */
  ghost predicate PickOf(pick: Option<set<int>>, read: Option<seq<Draw>>, ball: Algorithms.Ball,
                         order: Algorithms.Order, theSize: int, theMax: int) {
    if read.None? then pick.None? else Algorithms.Selection(pick, read.value, ball, order, theSize, theMax)
  }

  /** What `getPeriodicNumbers` gives, as `Algorithms.GetPeriodicNumbers` states it. */
  ghost predicate PeriodicPick(r: Option<set<int>>, game: Game, records: seq<Draw>) {
    var p := Algorithms.PeriodIndex(game);
    && (r.Some? <==> p < |records| && NumberOfBalls(game) <= |Algorithms.LineInts(records[p])|)
    && (r.Some? ==> r.value == set i | 0 <= i < NumberOfBalls(game) :: Algorithms.LineInts(records[p])[i])
  }

  /** What `getPeriodicBonusBalls` gives, as `Algorithms.GetPeriodicBonusBalls` states it. */
  ghost predicate PeriodicBonusPick(r: Option<set<int>>, game: Game, records: seq<Draw>) {
    var p := Algorithms.PeriodIndex(game);
    && (r.Some? <==> p < |records| && NumberOfBalls(game) < |Algorithms.LineInts(records[p])|)
    && (r.Some? ==> r.value == {Algorithms.LineInts(records[p])[NumberOfBalls(game)]})
  }

  /** A selected pick that failed stops the merge; one not selected is not looked at. */
  predicate Ok(selected: bool, pick: Option<set<int>>) {
    !selected || pick.Some?
  }

  /** The pick's set, when selected, as a one-set list. */
  function Part(selected: bool, pick: Option<set<int>>): seq<set<int>>
    requires Ok(selected, pick)
  {
    if selected then [pick.value] else []
  }

  /** The custom numbers the game's range admits. */
  function Custom(s: Settings): (c: set<int>)
    ensures forall x :: x in c <==> x in s.customNumbers && x <= Range(s.game)
  {
    set x | x in s.customNumbers && x <= Range(s.game)
  }

  /** The sets the normal-ball merge reads: the custom numbers up to the range, then the picks. */
  function NormalSources(s: Settings, hot: Option<set<int>>, cold: Option<set<int>>, periodic: Option<set<int>>)
    : seq<set<int>>
    requires AllOk(s, hot, cold, periodic)
  {
    [Custom(s)] + Part(s.hotSelected, hot) + Part(s.coldSelected, cold) + Part(s.periodicSelected, periodic)
  }

  /** Every selected pick succeeded. */
  predicate AllOk(s: Settings, hot: Option<set<int>>, cold: Option<set<int>>, periodic: Option<set<int>>) {
    Ok(s.hotSelected, hot) && Ok(s.coldSelected, cold) && Ok(s.periodicSelected, periodic)
  }

  /**
   * The normal-ball picks `processNormalGame` makes: each selected pick is what its algorithm
   * gives, once the picks before it succeeded. The hot and the cold pick read the data file
   * through one `GetDraws` object, so the cold read starts from the count the hot read stored.
   */
  ghost predicate NormalPicks(s: Settings, text: string, fileLength: int, records: seq<Draw>,
                              hot: Option<set<int>>, cold: Option<set<int>>, periodic: Option<set<int>>) {
    var n, range := NumberOfBalls(s.game), Range(s.game);
    && (s.hotSelected ==>
          PickOf(hot, ReadOf(s, text, fileLength, s.count), Algorithms.Main, Algorithms.Hot, n, range))
    && (s.coldSelected && Ok(s.hotSelected, hot) ==>
          PickOf(cold, ReadOf(s, text, fileLength, AfterHot(s, fileLength)), Algorithms.Main, Algorithms.Cold, n, range))
    && (s.periodicSelected && Ok(s.hotSelected, hot) && Ok(s.coldSelected, cold) ==>
          PeriodicPick(periodic, s.game, records))
  }

  /**
   * `processNormalGame` with the picks it made: the merge of the custom numbers and the picks,
   * or `None` where a selected pick failed.
   */
  ghost predicate NormalOutcome(s: Settings, text: string, fileLength: int, records: seq<Draw>,
                                hot: Option<set<int>>, cold: Option<set<int>>, periodic: Option<set<int>>,
                                r: Option<set<int>>) {
    && NormalPicks(s, text, fileLength, records, hot, cold, periodic)
    && (r.Some? <==> AllOk(s, hot, cold, periodic))
    && (r.Some? ==> r.value == Merge(NormalSources(s, hot, cold, periodic), s.inclusive))
  }

  /** The sets the bonus-ball merge reads: the selected picks. */
  function BonusSources(s: Settings, hot: Option<set<int>>, cold: Option<set<int>>, periodic: Option<set<int>>)
    : seq<set<int>>
    requires AllOk(s, hot, cold, periodic)
  {
    Part(s.hotSelected, hot) + Part(s.coldSelected, cold) + Part(s.periodicSelected, periodic)
  }

  /** The bonus-ball picks `processBonusBallGame` makes, as `NormalPicks` for the main balls. */
  ghost predicate BonusPicks(s: Settings, text: string, fileLength: int, records: seq<Draw>,
                             hot: Option<set<int>>, cold: Option<set<int>>, periodic: Option<set<int>>)
    requires HasBonusBall(s.game)
  {
    var n, range := NumberOfBonusBalls(s.game), BonusBallRange(s.game);
    && (s.hotSelected ==>
          PickOf(hot, ReadOf(s, text, fileLength, s.count), Algorithms.Bonus, Algorithms.Hot, n, range))
    && (s.coldSelected && Ok(s.hotSelected, hot) ==>
          PickOf(cold, ReadOf(s, text, fileLength, AfterHot(s, fileLength)), Algorithms.Bonus, Algorithms.Cold, n, range))
    && (s.periodicSelected && Ok(s.hotSelected, hot) && Ok(s.coldSelected, cold) ==>
          PeriodicBonusPick(periodic, s.game, records))
  }

  /** `processBonusBallGame` with the picks it made: always the union, never the exclusive step. */
  ghost predicate BonusOutcome(s: Settings, text: string, fileLength: int, records: seq<Draw>,
                               hot: Option<set<int>>, cold: Option<set<int>>, periodic: Option<set<int>>,
                               r: Option<set<int>>)
    requires HasBonusBall(s.game)
  {
    && BonusPicks(s, text, fileLength, records, hot, cold, periodic)
    && (r.Some? <==> AllOk(s, hot, cold, periodic))
    && (r.Some? ==> r.value == Union(BonusSources(s, hot, cold, periodic)))
  }

  // ---------------------------------------------------------------------------------------------
  // The merges.

  /** Appending a pick's members (`addAll`) keeps the list in step with the sets read so far. */
  method AddAll(list: seq<int>, ghost ss: seq<set<int>>, pick: set<int>) returns (r: seq<int>)
    requires multiset(list) == Bag(ss)
    ensures multiset(r) == Bag(ss + [pick])
  {
    var xs := ListOf(pick);
    r := list + xs;
    BagSnoc(ss, pick);
  }

  /** Lines 46-49 of `processNormalGame`: the custom numbers, less those above the game's range. */
  method CustomList(s: Settings) returns (list: seq<int>)
    ensures multiset(list) == Bag([Custom(s)])
  {
    var custom := ListOf(s.customNumbers);
    list := RemoveNumbersHigherThan(custom, Range(s.game));
    ghost var ss := [Custom(s)];
    assert Bag(ss) == multiset(Custom(s)) by {
      assert ss[..0] == [];
    }
    forall x ensures multiset(list)[x] == multiset(Custom(s))[x] {
    }
  }

  /** Lines 51-53 of `processNormalGame`: the hot numbers, when selected, joined to the list. */
  method HotStage(s: Settings, g: DrawSource.GetDraws, text: string, fileLength: int, list: seq<int>,
                  ghost ss: seq<set<int>>)
    returns (ok: bool, r: seq<int>, ghost pick: Option<set<int>>)
    requires g.game == s.game && g.jackpotStatus == s.jackpotOnly && g.payout == s.payout
    requires multiset(list) == Bag(ss)
    modifies g
    ensures g.numberOfDrawsToCount
              == if s.hotSelected then DrawSource.Clamp(old(g.numberOfDrawsToCount), fileLength)
                 else old(g.numberOfDrawsToCount)
    ensures s.hotSelected ==>
      PickOf(pick, ReadOf(s, text, fileLength, old(g.numberOfDrawsToCount)), Algorithms.Main, Algorithms.Hot,
             NumberOfBalls(s.game), Range(s.game))
    ensures ok <==> Ok(s.hotSelected, pick)
    ensures ok ==> multiset(r) == Bag(ss + Part(s.hotSelected, pick))
  {
    ok, r, pick := true, list, None;
    assert ss + [] == ss;
    if s.hotSelected {
      var draws := g.ReadDraws(text, fileLength);
      if draws.None? {
        return false, r, pick;
      }
      var p := Algorithms.GetHotNumbers(s.game, draws.value);
      pick := p;
      if p.None? {
        return false, r, pick;
      }
      r := AddAll(list, ss, p.value);
    }
  }

  /** Lines 54-56 of `processNormalGame`: the cold numbers, when selected, joined to the list. */
  method ColdStage(s: Settings, g: DrawSource.GetDraws, text: string, fileLength: int, list: seq<int>,
                   ghost ss: seq<set<int>>)
    returns (ok: bool, r: seq<int>, ghost pick: Option<set<int>>)
    requires g.game == s.game && g.jackpotStatus == s.jackpotOnly && g.payout == s.payout
    requires multiset(list) == Bag(ss)
    modifies g
    ensures g.numberOfDrawsToCount
              == if s.coldSelected then DrawSource.Clamp(old(g.numberOfDrawsToCount), fileLength)
                 else old(g.numberOfDrawsToCount)
    ensures s.coldSelected ==>
      PickOf(pick, ReadOf(s, text, fileLength, old(g.numberOfDrawsToCount)), Algorithms.Main, Algorithms.Cold,
             NumberOfBalls(s.game), Range(s.game))
    ensures ok <==> Ok(s.coldSelected, pick)
    ensures ok ==> multiset(r) == Bag(ss + Part(s.coldSelected, pick))
  {
    ok, r, pick := true, list, None;
    assert ss + [] == ss;
    if s.coldSelected {
      var draws := g.ReadDraws(text, fileLength);
      if draws.None? {
        return false, r, pick;
      }
      var p := Algorithms.GetColdNumbers(s.game, draws.value);
      pick := p;
      if p.None? {
        return false, r, pick;
      }
      r := AddAll(list, ss, p.value);
    }
  }

  /** Lines 57-59 of `processNormalGame`: the periodic numbers, when selected, joined to the list. */
  method PeriodicStage(s: Settings, records: seq<Draw>, list: seq<int>, ghost ss: seq<set<int>>)
    returns (ok: bool, r: seq<int>, ghost pick: Option<set<int>>)
    requires multiset(list) == Bag(ss)
    ensures s.periodicSelected ==> PeriodicPick(pick, s.game, records)
    ensures ok <==> Ok(s.periodicSelected, pick)
    ensures ok ==> multiset(r) == Bag(ss + Part(s.periodicSelected, pick))
  {
    ok, r, pick := true, list, None;
    assert ss + [] == ss;
    if s.periodicSelected {
      var p := Algorithms.GetPeriodicNumbers(s.game, records);
      pick := p;
      if p.None? {
        return false, r, pick;
      }
      r := AddAll(list, ss, p.value);
    }
  }

  /**
   * Lines 46-59 of `processNormalGame`: the custom numbers up to the game's range, then the
   * members of each selected pick, in one list; `ok` is false once a selected pick failed, and
   * the picks after it are not made.
   */
  method GatherNormal(s: Settings, text: string, fileLength: int, records: seq<Draw>)
    returns (list: seq<int>, ok: bool, ghost hot: Option<set<int>>, ghost cold: Option<set<int>>,
             ghost periodic: Option<set<int>>)
    ensures NormalPicks(s, text, fileLength, records, hot, cold, periodic)
    ensures ok <==> AllOk(s, hot, cold, periodic)
    ensures ok ==> multiset(list) == Bag(NormalSources(s, hot, cold, periodic))
  {
    cold, periodic := None, None;
    list := CustomList(s);
    var getDraws := CreateGetDraws(s);
    ok, list, hot := HotStage(s, getDraws, text, fileLength, list, [Custom(s)]);
    if !ok {
      return;
    }
    ok, list, cold := ColdStage(s, getDraws, text, fileLength, list, [Custom(s)] + Part(s.hotSelected, hot));
    if !ok {
      return;
    }
    ok, list, periodic :=
      PeriodicStage(s, records, list, [Custom(s)] + Part(s.hotSelected, hot) + Part(s.coldSelected, cold));
  }

  /**
   * `processNormalGame`: the gathered list; in exclusive mode the list is sorted and the loop
   * keeps what occurs at least twice; the result is the list as a `TreeSet`, or `None` where a
   * selected pick failed. `text` is the data file the `GetDraws` object reads, `fileLength` its
   * line count, and `records` the file's lines as the periodic pick reads them.
   */
  method ProcessNormalGame(s: Settings, text: string, fileLength: int, records: seq<Draw>)
    returns (r: Option<set<int>>, ghost hot: Option<set<int>>, ghost cold: Option<set<int>>,
             ghost periodic: Option<set<int>>)
    ensures NormalOutcome(s, text, fileLength, records, hot, cold, periodic, r)
  {
    var list, ok;
    list, ok, hot, cold, periodic := GatherNormal(s, text, fileLength, records);
    if !ok {
      return None, hot, cold, periodic;
    }
    MergeOfList(list, NormalSources(s, hot, cold, periodic));
    if !s.inclusive {
      var sorted := SortList(list);
      list := KeepRepeated(sorted);
    }
    r := Some(Combinations.Elems(list));
  }

  /** Lines 79-82 of `processBonusBallGame`: the hot bonus balls, when selected, joined to the list. */
  method HotBonusStage(s: Settings, g: DrawSource.GetDraws, text: string, fileLength: int, list: seq<int>,
                       ghost ss: seq<set<int>>)
    returns (ok: bool, r: seq<int>, ghost pick: Option<set<int>>)
    requires HasBonusBall(s.game)
    requires g.game == s.game && g.jackpotStatus == s.jackpotOnly && g.payout == s.payout
    requires multiset(list) == Bag(ss)
    modifies g
    ensures g.numberOfDrawsToCount
              == if s.hotSelected then DrawSource.Clamp(old(g.numberOfDrawsToCount), fileLength)
                 else old(g.numberOfDrawsToCount)
    ensures s.hotSelected ==>
      PickOf(pick, ReadOf(s, text, fileLength, old(g.numberOfDrawsToCount)), Algorithms.Bonus, Algorithms.Hot,
             NumberOfBonusBalls(s.game), BonusBallRange(s.game))
    ensures ok <==> Ok(s.hotSelected, pick)
    ensures ok ==> multiset(r) == Bag(ss + Part(s.hotSelected, pick))
  {
    ok, r, pick := true, list, None;
    assert ss + [] == ss;
    if s.hotSelected {
      var draws := g.ReadDraws(text, fileLength);
      if draws.None? {
        return false, r, pick;
      }
      var p := Algorithms.GetHotBonusBalls(s.game, draws.value);
      pick := p;
      if p.None? {
        return false, r, pick;
      }
      r := AddAll(list, ss, p.value);
    }
  }

  /** Lines 83-86 of `processBonusBallGame`: the cold bonus balls, when selected, joined to the list. */
  method ColdBonusStage(s: Settings, g: DrawSource.GetDraws, text: string, fileLength: int, list: seq<int>,
                        ghost ss: seq<set<int>>)
    returns (ok: bool, r: seq<int>, ghost pick: Option<set<int>>)
    requires HasBonusBall(s.game)
    requires g.game == s.game && g.jackpotStatus == s.jackpotOnly && g.payout == s.payout
    requires multiset(list) == Bag(ss)
    modifies g
    ensures g.numberOfDrawsToCount
              == if s.coldSelected then DrawSource.Clamp(old(g.numberOfDrawsToCount), fileLength)
                 else old(g.numberOfDrawsToCount)
    ensures s.coldSelected ==>
      PickOf(pick, ReadOf(s, text, fileLength, old(g.numberOfDrawsToCount)), Algorithms.Bonus, Algorithms.Cold,
             NumberOfBonusBalls(s.game), BonusBallRange(s.game))
    ensures ok <==> Ok(s.coldSelected, pick)
    ensures ok ==> multiset(r) == Bag(ss + Part(s.coldSelected, pick))
  {
    ok, r, pick := true, list, None;
    assert ss + [] == ss;
    if s.coldSelected {
      var draws := g.ReadDraws(text, fileLength);
      if draws.None? {
        return false, r, pick;
      }
      var p := Algorithms.GetColdBonusBalls(s.game, draws.value);
      pick := p;
      if p.None? {
        return false, r, pick;
      }
      r := AddAll(list, ss, p.value);
    }
  }

  /** Lines 87-90 of `processBonusBallGame`: the periodic bonus ball, when selected, joined to the list. */
  method PeriodicBonusStage(s: Settings, records: seq<Draw>, list: seq<int>, ghost ss: seq<set<int>>)
    returns (ok: bool, r: seq<int>, ghost pick: Option<set<int>>)
    requires HasBonusBall(s.game)
    requires multiset(list) == Bag(ss)
    ensures s.periodicSelected ==> PeriodicBonusPick(pick, s.game, records)
    ensures ok <==> Ok(s.periodicSelected, pick)
    ensures ok ==> multiset(r) == Bag(ss + Part(s.periodicSelected, pick))
  {
    ok, r, pick := true, list, None;
    assert ss + [] == ss;
    if s.periodicSelected {
      var p := Algorithms.GetPeriodicBonusBalls(s.game, records);
      pick := p;
      if p.None? {
        return false, r, pick;
      }
      r := AddAll(list, ss, p.value);
    }
  }

  /**
   * Lines 77-90 of `processBonusBallGame`: the members of each selected bonus-ball pick in one
   * list; `ok` is false once a selected pick failed.
   */
  method GatherBonus(s: Settings, text: string, fileLength: int, records: seq<Draw>)
    returns (list: seq<int>, ok: bool, ghost hot: Option<set<int>>, ghost cold: Option<set<int>>,
             ghost periodic: Option<set<int>>)
    requires HasBonusBall(s.game)
    ensures BonusPicks(s, text, fileLength, records, hot, cold, periodic)
    ensures ok <==> AllOk(s, hot, cold, periodic)
    ensures ok ==> multiset(list) == Bag(BonusSources(s, hot, cold, periodic))
  {
    cold, periodic := None, None;
    var getDraws := CreateGetDraws(s);
    ok, list, hot := HotBonusStage(s, getDraws, text, fileLength, [], []);
    if !ok {
      return;
    }
    ok, list, cold := ColdBonusStage(s, getDraws, text, fileLength, list, [] + Part(s.hotSelected, hot));
    if !ok {
      return;
    }
    ok, list, periodic :=
      PeriodicBonusStage(s, records, list, [] + Part(s.hotSelected, hot) + Part(s.coldSelected, cold));
  }

  /** `processBonusBallGame`: the gathered bonus-ball list as a `TreeSet`. */
  method ProcessBonusBallGame(s: Settings, text: string, fileLength: int, records: seq<Draw>)
    returns (r: Option<set<int>>, ghost hot: Option<set<int>>, ghost cold: Option<set<int>>,
             ghost periodic: Option<set<int>>)
    requires HasBonusBall(s.game)
    ensures BonusOutcome(s, text, fileLength, records, hot, cold, periodic, r)
  {
    var list, ok;
    list, ok, hot, cold, periodic := GatherBonus(s, text, fileLength, records);
    if !ok {
      return None, hot, cold, periodic;
    }
    MergeOfList(list, BonusSources(s, hot, cold, periodic));
    r := Some(Combinations.Elems(list));
  }

  // ---------------------------------------------------------------------------------------------
  // The result text.

  /** Some picks for which `processNormalGame` gives `r`. */
  ghost predicate NormalResult(s: Settings, text: string, fileLength: int, records: seq<Draw>, r: Option<set<int>>) {
    exists hot, cold, periodic :: NormalOutcome(s, text, fileLength, records, hot, cold, periodic, r)
  }

  /** Some picks for which `processBonusBallGame` gives `r`. */
  ghost predicate BonusResult(s: Settings, text: string, fileLength: int, records: seq<Draw>, r: Option<set<int>>)
    requires HasBonusBall(s.game)
  {
    exists hot, cold, periodic :: BonusOutcome(s, text, fileLength, records, hot, cold, periodic, r)
  }

  /** What `getOutput` gives for the sorted numbers and bonus balls, wheeled on the game's ball count. */
  ghost function Output(s: Settings, numbers: seq<int>, hasBonus: bool, bonus: seq<int>): Option<string> {
    if s.wheelResults then Combinations.ComboText(numbers, false, hasBonus, bonus, NumberOfBalls(s.game))
    else Some(Combinations.Listing(numbers, hasBonus, bonus))
  }

  /**
   * The text `getResult` gives for the merged numbers and, in a bonus-ball game, the merged bonus
   * balls; `None` where a merge failed.
   */
  ghost function ResultText(s: Settings, normal: Option<set<int>>, bonus: Option<set<int>>): Option<string> {
    if normal.None? then None
    else if !HasBonusBall(s.game) then Output(s, Combinations.Ascending(normal.value), false, [])
    else if bonus.None? then None
    else Output(s, Combinations.Ascending(normal.value), true, Combinations.Ascending(bonus.value))
  }

  /**
   * `getResult`: the normal-ball merge, then in a bonus-ball game the bonus-ball merge, handed to
   * a `Combinations` that lists them or wheels them on the game's ball count. Each merge builds
   * its own `GetDraws` object over the data file `text` of `fileLength` lines.
   */
  method GetResult(s: Settings, text: string, fileLength: int, records: seq<Draw>)
    returns (r: Option<string>, ghost normal: Option<set<int>>, ghost bonus: Option<set<int>>)
    ensures NormalResult(s, text, fileLength, records, normal)
    ensures HasBonusBall(s.game) && normal.Some? ==> BonusResult(s, text, fileLength, records, bonus)
    ensures r == ResultText(s, normal, bonus)
  {
    bonus := None;
    var n, hot, cold, periodic := ProcessNormalGame(s, text, fileLength, records);
    normal := n;
    if n.None? {
      return None, normal, bonus;
    }
    var ballsInGame := NumberOfBalls(s.game);
    if HasBonusBall(s.game) {
      var b, bHot, bCold, bPeriodic := ProcessBonusBallGame(s, text, fileLength, records);
      bonus := b;
      if b.None? {
        return None, normal, bonus;
      }
      var c := new Combinations.Combinations.WithBonusBalls(n.value, b.value);
      r := c.GetOutput(s.wheelResults, ballsInGame);
    } else {
      var c := new Combinations.Combinations(n.value);
      r := c.GetOutput(s.wheelResults, ballsInGame);
    }
  }

  // ---------------------------------------------------------------------------------------------
  // What the settings lead to.

  /** Inclusive mode keeps the admissible custom numbers and every selected pick. */
  lemma InclusiveKeepsPicks(s: Settings, text: string, fileLength: int, records: seq<Draw>,
                            hot: Option<set<int>>, cold: Option<set<int>>, periodic: Option<set<int>>,
                            r: Option<set<int>>)
    requires NormalOutcome(s, text, fileLength, records, hot, cold, periodic, r)
    requires s.inclusive && r.Some?
    ensures Custom(s) <= r.value
    ensures s.hotSelected ==> hot.value <= r.value
    ensures s.coldSelected ==> cold.value <= r.value
    ensures s.periodicSelected ==> periodic.value <= r.value
  {
    InclusiveKeepsSources(s, hot, cold, periodic, r.value);
  }

  /** The union of the custom numbers and the picks holds each of them. */
  lemma InclusiveKeepsSources(s: Settings, hot: Option<set<int>>, cold: Option<set<int>>, periodic: Option<set<int>>,
                              m: set<int>)
    requires AllOk(s, hot, cold, periodic) && m == Merge(NormalSources(s, hot, cold, periodic), true)
    ensures Custom(s) <= m
    ensures s.hotSelected ==> hot.value <= m
    ensures s.coldSelected ==> cold.value <= m
    ensures s.periodicSelected ==> periodic.value <= m
  {
    var ss := NormalSources(s, hot, cold, periodic);
    forall i | 0 <= i < |ss| ensures ss[i] <= m {
      InclusiveHoldsAll(ss, i);
    }
    assert ss[0] == Custom(s);
    var h := if s.hotSelected then 1 else 0;
    var c := if s.coldSelected then 1 else 0;
    if s.hotSelected {
      assert ss[1] == hot.value;
    }
    if s.coldSelected {
      assert ss[1 + h] == cold.value;
    }
    if s.periodicSelected {
      assert ss[1 + h + c] == periodic.value;
    }
  }

  /**
   * Exclusive mode with no custom numbers and a single strategy keeps nothing: no value occurs in
   * two of the merged sets.
   */
  lemma SinglePickExclusive(s: Settings, text: string, fileLength: int, records: seq<Draw>,
                            hot: Option<set<int>>, cold: Option<set<int>>, periodic: Option<set<int>>,
                            r: Option<set<int>>)
    requires NormalOutcome(s, text, fileLength, records, hot, cold, periodic, r)
    requires !s.inclusive && s.customNumbers == {}
    requires (if s.hotSelected then 1 else 0) + (if s.coldSelected then 1 else 0)
             + (if s.periodicSelected then 1 else 0) <= 1
    ensures r.Some? ==> r.value == {}
  {
    if r.Some? {
      var ss := NormalSources(s, hot, cold, periodic);
      assert ss[0] == Custom(s) == {};
      assert |ss| <= 2;
      forall x ensures Tally(x, ss) <= 1 {
        if |ss| == 2 {
          var first: seq<set<int>> := [{}];
          assert ss[..1] == first && first[..0] == [];
        }
      }
    }
  }

  /**
   * In a game without bonus balls, the wheel gives every ascending pick of the game's ball count
   * from the merged numbers, one line each, once there are that many; otherwise the listing.
   */
  lemma WheelOrListing(s: Settings, normal: set<int>)
    requires !HasBonusBall(s.game) && s.wheelResults
    ensures |normal| >= NumberOfBalls(s.game) ==>
      ResultText(s, Some(normal), None)
        == Some(Strings.Terminated(
                  Combinations.Lines(Combinations.Wheel(Combinations.Ascending(normal), false, NumberOfBalls(s.game), 0, {})),
                  Combinations.MS_NEWLINE))
    ensures |normal| < NumberOfBalls(s.game) ==>
      ResultText(s, Some(normal), None) == Some(Combinations.Listing(Combinations.Ascending(normal), false, []))
  {
    var numbers := Combinations.Ascending(normal);
    Combinations.AscendingSorted(normal);
    var k := NumberOfBalls(s.game);
    if |normal| >= k {
      Combinations.ComboTextLines(numbers, false, false, [], k);
    } else {
      Combinations.ComboTextFallback(numbers, false, false, [], k);
    }
  }

  /** With no bonus-ball strategy selected the bonus-ball merge is empty. */
  lemma NoBonusPicks(s: Settings, text: string, fileLength: int, records: seq<Draw>,
                     hot: Option<set<int>>, cold: Option<set<int>>, periodic: Option<set<int>>,
                     r: Option<set<int>>)
    requires HasBonusBall(s.game)
    requires BonusOutcome(s, text, fileLength, records, hot, cold, periodic, r)
    requires !s.hotSelected && !s.coldSelected && !s.periodicSelected
    ensures r == Some({})
  {
  }

  /**
   * In a bonus-ball game an empty bonus-ball merge makes the wheel fail once there are enough
   * numbers to wheel: `getComboOutput` reads the first bonus ball of an empty array.
   */
  lemma EmptyBonusWheelFails(s: Settings, normal: set<int>)
    requires HasBonusBall(s.game) && s.wheelResults
    requires |normal| >= NumberOfBalls(s.game)
    ensures ResultText(s, Some(normal), Some({})) == None
  {
    Combinations.AscendingSorted(normal);
    assert Combinations.Ascending({}) == [];
    Combinations.ComboTextLines(Combinations.Ascending(normal), false, true, [], NumberOfBalls(s.game));
  }

  /**
   * On a data file of at least 15 lines, the hot read's clamp leaves a count of 0 or more as the
   * cold read would clamp it, so the hot and the cold pick count the same draws.
   */
  lemma TwoReadsAgree(s: Settings, text: string, fileLength: int)
    requires s.count >= 0 && fileLength >= DrawSource.MIN_DRAWS_TO_COUNT
    ensures ReadOf(s, text, fileLength, AfterHot(s, fileLength)) == ReadOf(s, text, fileLength, s.count)
  {
    DrawSource.ClampWithinFile(s.count, fileLength);
  }

  /**
   * On a data file of fewer than 15 written lines, a stored count of 0 reads the whole file, and
   * the count 0 clamped twice reads past its end.
   */
  lemma ShortFileReads(s: Settings, records: seq<Draw>)
    requires forall i :: 0 <= i < |records| ==> DataFile.Readable(records[i], NumberOfBalls(s.game), HasBonusBall(s.game))
    requires 0 < |records| < DrawSource.MIN_DRAWS_TO_COUNT
    ensures ReadOf(s, Directory.TextOf(DataFile.Lines(records)), |records|, 0)
              == Some(DataFile.Selected(records, s.jackpotOnly, s.payout))
    ensures ReadOf(s, Directory.TextOf(DataFile.Lines(records)), |records|,
                   DrawSource.Clamp(0, |records|)).None?
  {
    var balls, withBonus := NumberOfBalls(s.game), HasBonusBall(s.game);
    DataFile.ReadWholeFile(records, balls, withBonus, s.jackpotOnly, s.payout);
    DrawSource.ClampMovesOnShortFile(|records|);
    DataFile.ReadBack(records, DrawSource.MIN_DRAWS_TO_COUNT, balls, withBonus, s.jackpotOnly, s.payout);
  }

  /**
   * On a data file of fewer than 15 lines, a count of 0 with both hot and cold selected makes
   * `processNormalGame` throw: the hot read clamps the stored count to the file's length and
   * succeeds, then the cold read raises that count to 15 and runs past the end of the file.
   */
  lemma ShortFileColdReadFails(s: Settings, records: seq<Draw>,
                               hot: Option<set<int>>, cold: Option<set<int>>, periodic: Option<set<int>>,
                               r: Option<set<int>>)
    requires forall i :: 0 <= i < |records| ==> DataFile.Readable(records[i], NumberOfBalls(s.game), HasBonusBall(s.game))
    requires 0 < |records| < DrawSource.MIN_DRAWS_TO_COUNT
    requires s.count == 0 && s.hotSelected && s.coldSelected
    requires NormalOutcome(s, Directory.TextOf(DataFile.Lines(records)), |records|, records, hot, cold, periodic, r)
    ensures hot.Some? && cold.None? && r.None?
  {
    ShortFileReads(s, records);
    var first := DataFile.Selected(records, s.jackpotOnly, s.payout);
    Algorithms.SelectionFacts(hot, first, Algorithms.Main, Algorithms.Hot, NumberOfBalls(s.game), Range(s.game));
  }
}
