/**
 * `analyzer.Algorithims`: how often each ball came up in the counted draws, the balls
 * grouped by that frequency in hot or cold order, the hot and cold picks taken from
 * those groups, and the periodic pick from the data file.
 */
module Algorithms {
  import opened Wrappers
  import opened JavaNumbers
  import opened Percentages
  import opened Comparators
  import opened Draws
  import opened Lottery
  import ArrayUtils
  import Sets

  /** Which balls a count is about: the main numbers or the bonus ball. */
  datatype Ball = Main | Bonus

  /** The highest ball of that kind the draw could have held. */
  function RangeOf(d: Draw, ball: Ball): int {
    match ball
    case Main => d.numberRange
    case Bonus => d.bonusBallRange
  }

  /** Ball `k` came up in the draw. */
  predicate Hit(d: Draw, ball: Ball, k: int) {
    match ball
    case Main => k in d.numbers
    case Bonus => d.bonusBall == k
  }

  /** Ball `k` could have come up in the draw. */
  predicate Covered(d: Draw, ball: Ball, k: int) {
    1 <= k <= RangeOf(d, ball)
  }

  /** In how many of the draws ball `k` could have come up. */
  function Covers(draws: seq<Draw>, ball: Ball, k: int): (n: nat)
    ensures n <= |draws|
  {
    if draws == [] then 0
    else Covers(draws[..|draws| - 1], ball, k) + (if Covered(draws[|draws| - 1], ball, k) then 1 else 0)
  }

  /** In how many of the draws ball `k` could have come up and did. */
  function Hits(draws: seq<Draw>, ball: Ball, k: int): (n: nat)
    ensures n <= Covers(draws, ball, k)
  {
    if draws == [] then 0
    else
      var last := draws[|draws| - 1];
      Hits(draws[..|draws| - 1], ball, k) + (if Covered(last, ball, k) && Hit(last, ball, k) then 1 else 0)
  }

  /** The highest ball any of the draws could have held, 0 for none. */
  function MaxRange(draws: seq<Draw>, ball: Ball): (m: nat)
    ensures forall i :: 0 <= i < |draws| ==> RangeOf(draws[i], ball) <= m
  {
    if draws == [] then 0
    else
      var m := MaxRange(draws[..|draws| - 1], ball);
      var r := RangeOf(draws[|draws| - 1], ball);
      if r > m then r else m
  }

  /**
   * The percentage ball `k` ends up with: `ZERO`, then for each draw that covers it an
   * occurrence or a non-occurrence (for its counters in Java ints, see `TallyCounts`).
   */
  function Tally(draws: seq<Draw>, ball: Ball, k: int): (p: Percentage)
    ensures draws == [] ==> p == ZERO
  {
    if draws == [] then ZERO
    else Step(Tally(draws[..|draws| - 1], ball, k), draws[|draws| - 1], ball, k)
  }

  /** The table `getNumberCount` or `getBonusBallCount` builds: every ball up to the highest range. */
  function Tallies(draws: seq<Draw>, ball: Ball): map<int, Percentage> {
    map k | 1 <= k <= MaxRange(draws, ball) :: Tally(draws, ball, k)
  }

  lemma Snoc<T>(s: seq<T>, j: nat)
    requires j < |s|
    ensures s[..j + 1] == s[..j] + [s[j]]
    ensures (s[..j] + [s[j]])[..j] == s[..j]
  {
  }

  lemma MaxRangeSnoc(ds: seq<Draw>, d: Draw, ball: Ball)
    ensures MaxRange(ds + [d], ball) == if RangeOf(d, ball) > MaxRange(ds, ball) then RangeOf(d, ball) else MaxRange(ds, ball)
  {
    var all := ds + [d];
    assert all[..|all| - 1] == ds;
  }

  lemma CountsSnoc(ds: seq<Draw>, d: Draw, ball: Ball, k: int)
    ensures Covers(ds + [d], ball, k) == Covers(ds, ball, k) + if Covered(d, ball, k) then 1 else 0
    ensures Hits(ds + [d], ball, k) == Hits(ds, ball, k) + if Covered(d, ball, k) && Hit(d, ball, k) then 1 else 0
  {
    var all := ds + [d];
    assert all[..|all| - 1] == ds;
  }

  /** What one draw does to the percentage of ball `k`. */
  function Step(p: Percentage, d: Draw, ball: Ball, k: int): Percentage {
    if !Covered(d, ball, k) then p
    else if Hit(d, ball, k) then AddOccurance(p)
    else AddNonOccurance(p)
  }

  /** One more draw: the balls it covers gain a draw, and an occurrence if they came up. */
  lemma TallySnoc(ds: seq<Draw>, d: Draw, ball: Ball, k: int)
    ensures Tally(ds + [d], ball, k) == Step(Tally(ds, ball, k), d, ball, k)
  {
    var all := ds + [d];
    assert all[..|all| - 1] == ds;
  }

  /** A ball beyond every range has never been counted: its entry would still be `ZERO`. */
  lemma {:induction false} TallyBeyond(ds: seq<Draw>, ball: Ball, k: int)
    requires k > MaxRange(ds, ball)
    ensures Covers(ds, ball, k) == 0 && Tally(ds, ball, k) == ZERO
  {
    if ds != [] {
      TallyBeyond(ds[..|ds| - 1], ball, k);
    }
  }

  /** The keys and values of the table after the draws `done`, and before any later draw. */
  ghost predicate Counted(count: map<int, Percentage>, done: seq<Draw>, ball: Ball) {
    (forall k :: k in count <==> 1 <= k <= MaxRange(done, ball))
    && (forall k :: k in count ==> count[k] == Tally(done, ball, k))
  }

  /** The first inner loop: every ball up to the draw's range gets an entry, `ZERO` if it is new. */
  method FillEntries(count: map<int, Percentage>, ghost done: seq<Draw>, draw: Draw, ball: Ball)
    returns (filled: map<int, Percentage>)
    requires Counted(count, done, ball)
    ensures forall k :: k in filled <==> 1 <= k <= MaxRange(done + [draw], ball)
    ensures forall k :: k in filled ==> filled[k] == Tally(done, ball, k)
  {
    MaxRangeSnoc(done, draw, ball);
    var range := RangeOf(draw, ball);
    filled := count;
    var i := 1;
    while i <= range
      invariant 1 <= i <= if range >= 1 then range + 1 else 1
      invariant forall k :: k in filled <==> 1 <= k <= MaxRange(done, ball) || 1 <= k < i
      invariant forall k :: k in filled ==> filled[k] == Tally(done, ball, k)
    {
      if i !in filled {
        TallyBeyond(done, ball, i);
        filled := filled[i := ZERO];
      }
      i := i + 1;
    }
  }

  /** Whether ball `i` came up, asked of the copy of the draw's numbers for main balls. */
  method IsHit(numbers: array<int>, draw: Draw, ball: Ball, i: int) returns (hit: bool)
    requires numbers[..] == draw.numbers
    ensures hit == Hit(draw, ball, i)
  {
    match ball {
      case Main => hit := ArrayUtils.ArrayContains(numbers, i);
      case Bonus => hit := draw.bonusBall == i;
    }
  }

  /** The second inner loop: every ball up to the draw's range gains an occurrence or a non-occurrence. */
  method UpdateEntries(filled: map<int, Percentage>, draw: Draw, ball: Ball)
    returns (count: map<int, Percentage>)
    requires forall k :: 1 <= k <= RangeOf(draw, ball) ==> k in filled
    ensures count.Keys == filled.Keys
    ensures forall k :: k in count ==> count[k] == Step(filled[k], draw, ball, k)
  {
    var numbers := NumbersArray(draw);
    var range := RangeOf(draw, ball);
    count := filled;
    var i := 1;
    while i <= range
      invariant 1 <= i <= if range >= 1 then range + 1 else 1
      invariant count.Keys == filled.Keys
      invariant forall k :: k in count && k < i ==> count[k] == Step(filled[k], draw, ball, k)
      invariant forall k :: k in count && k >= i ==> count[k] == filled[k]
      invariant numbers[..] == draw.numbers
    {
      var hit := IsHit(numbers, draw, ball, i);
      var entry := if hit then AddOccurance(count[i]) else AddNonOccurance(count[i]);
      assert entry == Step(filled[i], draw, ball, i);
      count := count[i := entry];
      i := i + 1;
    }
  }

  /** After both inner loops the table is that of one more draw. */
  lemma CountedStep(filled: map<int, Percentage>, count: map<int, Percentage>, done: seq<Draw>, draw: Draw, ball: Ball)
    requires forall k :: k in filled <==> 1 <= k <= MaxRange(done + [draw], ball)
    requires forall k :: k in filled ==> filled[k] == Tally(done, ball, k)
    requires count.Keys == filled.Keys
    requires forall k :: k in count ==> count[k] == Step(filled[k], draw, ball, k)
    ensures Counted(count, done + [draw], ball)
  {
    forall k | k in count
      ensures count[k] == Tally(done + [draw], ball, k)
    {
      TallySnoc(done, draw, ball, k);
    }
  }

  /**
   * `getNumberCount` (`ball == Main`) and `getBonusBallCount` (`ball == Bonus`): for each draw,
   * first every ball up to its range gets an entry, then each of them gains an occurrence
   * or a non-occurrence.
   */
  method Count(draws: seq<Draw>, ball: Ball) returns (count: map<int, Percentage>)
    ensures count == Tallies(draws, ball)
  {
    count := map[];
    for j := 0 to |draws|
      invariant Counted(count, draws[..j], ball)
    {
      Snoc(draws, j);
      var filled := FillEntries(count, draws[..j], draws[j], ball);
      MaxRangeSnoc(draws[..j], draws[j], ball);
      var updated := UpdateEntries(filled, draws[j], ball);
      CountedStep(filled, updated, draws[..j], draws[j], ball);
      count := updated;
    }
    assert draws[..|draws|] == draws;
  }

  /** Every draw covers at most `INT_MAX` times, so the counters never wrap. */
  lemma {:induction false} TallyCounts(draws: seq<Draw>, ball: Ball, k: int)
    requires |draws| <= INT_MAX
    ensures Tally(draws, ball, k) == Percentage(Hits(draws, ball, k), Covers(draws, ball, k))
  {
    if draws != [] {
      var front := draws[..|draws| - 1];
      TallyCounts(front, ball, k);
      assert Hits(front, ball, k) <= Covers(front, ball, k) <= |front|;
    }
  }

  /** A ball up to the highest range is covered by at least one draw. */
  lemma {:induction false} CoveredOnce(draws: seq<Draw>, ball: Ball, k: int)
    requires 1 <= k <= MaxRange(draws, ball)
    ensures Covers(draws, ball, k) >= 1
  {
    var front := draws[..|draws| - 1];
    if !Covered(draws[|draws| - 1], ball, k) {
      CoveredOnce(front, ball, k);
    }
  }

  /**
   * Every entry of the table counts at least one draw, so no entry is `ZERO` and each can be
   * compared: numerator the draws that hold the ball, denominator the draws that cover it.
   */
  lemma TalliesComparable(draws: seq<Draw>, ball: Ball)
    requires |draws| <= INT_MAX
    ensures forall k :: k in Tallies(draws, ball) ==>
      Tallies(draws, ball)[k] == Percentage(Hits(draws, ball, k), Covers(draws, ball, k))
      && 0 <= Tallies(draws, ball)[k].numerator <= Tallies(draws, ball)[k].denominator
      && Tallies(draws, ball)[k].denominator >= 1
  {
    forall k | k in Tallies(draws, ball)
      ensures Tallies(draws, ball)[k] == Percentage(Hits(draws, ball, k), Covers(draws, ball, k))
      ensures Covers(draws, ball, k) >= 1
    {
      TallyCounts(draws, ball, k);
      CoveredOnce(draws, ball, k);
    }
  }

  /** When all draws share one positive range, ball `k` up to it is covered by every draw. */
  lemma {:induction false} CoveredByAll(draws: seq<Draw>, ball: Ball, range: int, k: int)
    requires forall i :: 0 <= i < |draws| ==> RangeOf(draws[i], ball) == range
    requires 1 <= k <= range
    ensures Covers(draws, ball, k) == |draws|
  {
    if draws != [] {
      CoveredByAll(draws[..|draws| - 1], ball, range, k);
    }
  }

  // The `TreeMap` that `reverseMap` fills, keyed by the hot or the cold comparator.

  /** Which comparator keys the map. */
  datatype Order = Hot | Cold

  /** Where a percentage sits in that order: its value, negated for the hot order. */
  function Rank(order: Order, p: Percentage): real {
    if p.denominator == 0 then 0.0
    else
      match order
      case Hot => -Value(p)
      case Cold => Value(p)
  }

  /** `HotComparator.compare` or `ColdComparator.compare`. */
  function Compare(order: Order, a: Percentage, b: Percentage): (r: Option<int>)
    ensures r.Some? <==> a.denominator != 0 && b.denominator != 0
    ensures r.Some? ==> r.value == RealSign(Rank(order, a) - Rank(order, b))
  {
    match order
    case Hot => HotCompare(a, b)
    case Cold => ColdCompare(a, b)
  }

  /** One entry of the map: a percentage and the balls put under it. */
  datatype Bucket = Bucket(key: Percentage, members: set<int>)

  /** The entries in iteration order: every key comparable, in strictly ascending rank. */
  predicate Ordered(entries: seq<Bucket>, order: Order) {
    (forall i :: 0 <= i < |entries| ==> entries[i].key.denominator != 0)
    && (forall i, j :: 0 <= i < j < |entries| ==> Rank(order, entries[i].key) < Rank(order, entries[j].key))
  }

  /** What the map holds, found by rank, as the comparator finds it. */
  function Entries(entries: seq<Bucket>, order: Order): (m: map<real, Bucket>)
    ensures forall x :: x in m ==> Rank(order, m[x].key) == x
  {
    if entries == [] then map[]
    else Entries(entries[1..], order)[Rank(order, entries[0].key) := entries[0]]
  }

  /** The key the map files a new value under: one comparing equal is kept. */
  function KeptKey(entries: seq<Bucket>, key: Percentage, order: Order): Percentage {
    var m := Entries(entries, order);
    if Rank(order, key) in m then m[Rank(order, key)].key else key
  }

  /**
   * `TreeMap.put`: walks the keys in order; a key comparing equal keeps its place and its
   * key and takes the new value. A key that cannot be compared throws.
   */
  function Put(entries: seq<Bucket>, key: Percentage, members: set<int>, order: Order): (r: Option<seq<Bucket>>)
    requires Ordered(entries, order)
    ensures r.Some? <==> key.denominator != 0
    decreases |entries|
  {
    if entries == [] then
      if Compare(order, key, key).None? then None else Some([Bucket(key, members)])
    else
      match Compare(order, key, entries[0].key)
      case None => None
      case Some(c) =>
        if c < 0 then Some([Bucket(key, members)] + entries)
        else if c == 0 then Some([Bucket(entries[0].key, members)] + entries[1..])
        else
          match Put(entries[1..], key, members, order)
          case None => None
          case Some(later) => Some([entries[0]] + later)
  }

  lemma OrderedTail(entries: seq<Bucket>, order: Order)
    requires Ordered(entries, order) && |entries| > 0
    ensures Ordered(entries[1..], order)
  {
  }

  /** The first entry after `put` is the new key's or the old first one. */
  lemma {:induction false} PutFirst(entries: seq<Bucket>, key: Percentage, members: set<int>, order: Order)
    requires Ordered(entries, order) && key.denominator != 0
    ensures var r := Put(entries, key, members, order).value;
      |r| > 0 && (Rank(order, r[0].key) == Rank(order, key) || (|entries| > 0 && r[0] == entries[0]))
  {
    if entries != [] {
      var c := Compare(order, key, entries[0].key).value;
      if c > 0 {
        OrderedTail(entries, order);
        PutFirst(entries[1..], key, members, order);
      }
    }
  }

  /** `put` keeps the keys in order. */
  lemma {:induction false} PutOrdered(entries: seq<Bucket>, key: Percentage, members: set<int>, order: Order)
    requires Ordered(entries, order) && key.denominator != 0
    ensures Ordered(Put(entries, key, members, order).value, order)
  {
    if entries != [] {
      var c := Compare(order, key, entries[0].key).value;
      if c > 0 {
        OrderedTail(entries, order);
        PutOrdered(entries[1..], key, members, order);
        PutFirst(entries[1..], key, members, order);
        var later := Put(entries[1..], key, members, order).value;
        assert Put(entries, key, members, order).value == [entries[0]] + later;
        assert Rank(order, entries[0].key) < Rank(order, later[0].key);
      }
    }
  }

  /** The map after `put` is the map before with the key's rank updated. */
  lemma {:induction false} PutEntries(entries: seq<Bucket>, key: Percentage, members: set<int>, order: Order)
    requires Ordered(entries, order) && key.denominator != 0
    ensures Entries(Put(entries, key, members, order).value, order)
      == Entries(entries, order)[Rank(order, key) := Bucket(KeptKey(entries, key, order), members)]
  {
    if entries != [] {
      var c := Compare(order, key, entries[0].key).value;
      var x, x0 := Rank(order, key), Rank(order, entries[0].key);
      if c < 0 {
        EntriesAbove(entries, order, x);
      } else if c == 0 {
        assert x == x0;
      } else {
        OrderedTail(entries, order);
        PutEntries(entries[1..], key, members, order);
        var later := Put(entries[1..], key, members, order).value;
        assert Put(entries, key, members, order).value == [entries[0]] + later;
        assert x != x0;
        assert KeptKey(entries[1..], key, order) == KeptKey(entries, key, order);
      }
    }
  }

  /** No rank below the first key's is in the map. */
  lemma {:induction false} EntriesAbove(entries: seq<Bucket>, order: Order, x: real)
    requires Ordered(entries, order)
    requires |entries| > 0 && x < Rank(order, entries[0].key)
    ensures x !in Entries(entries, order)
  {
    if |entries| > 1 {
      OrderedTail(entries, order);
      EntriesAbove(entries[1..], order, x);
    }
  }

  /** The keys of the table whose percentage equals `v`, field by field. */
  function Holders(original: map<int, Percentage>, v: Percentage): (s: set<int>)
    ensures forall k :: k in s <==> k in original && original[k] == v
  {
    set k | k in original && original[k] == v
  }

  /** The inner loop of `reverseMap`: the keys whose percentage `equals` the one at hand. */
  method KeysWith(original: map<int, Percentage>, v: Percentage) returns (keys: set<int>)
    ensures keys == Holders(original, v)
  {
    keys := {};
    var todo := original.Keys;
    while todo != {}
      invariant todo <= original.Keys
      invariant forall k :: k in keys <==> k in original && k !in todo && original[k] == v
      decreases |todo|
    {
      var key := Sets.Pick(todo);
      if Equals(original[key], v) {
        keys := keys + {key};
      }
      todo := todo - {key};
    }
    assert forall k :: k in keys <==> k in Holders(original, v);
  }

  /**
   * What `reverseMap` leaves in the map: a bucket for the ratio of every key of the table,
   * and under each ratio a key of the table and the balls of one percentage of that ratio.
   */
  ghost predicate Grouped(entries: seq<Bucket>, original: map<int, Percentage>, order: Order) {
    var m := Entries(entries, order);
    (forall k :: k in original ==> Rank(order, original[k]) in m)
    && (forall x :: x in m ==> m[x].key in original.Values)
    && (forall x :: x in m ==> exists v :: v in original.Values && Rank(order, v) == x && m[x].members == Holders(original, v))
  }

  lemma HolderOf<K, V>(m: map<K, V>, v: V) returns (k: K)
    requires v in m.Values
    ensures k in m && m[k] == v
  {
    k :| k in m && m[k] == v;
  }

  /**
   * The loop invariant of `reverseMap`, with the percentages `todo` still to come and,
   * for each rank, the percentage `last` put under it.
   */
  ghost predicate Building(original: map<int, Percentage>, order: Order, entries: seq<Bucket>,
                           todo: set<Percentage>, last: map<real, Percentage>) {
    var m := Entries(entries, order);
    todo <= original.Values
    && Ordered(entries, order)
    && (forall v :: v in original.Values && v !in todo ==> v.denominator != 0 && Rank(order, v) in m)
    && (forall x :: x in m ==> m[x].key in original.Values)
    && (forall x :: x in m ==>
          x in last && last[x] in original.Values && Rank(order, last[x]) == x && m[x].members == Holders(original, last[x]))
  }

  /** One round of the loop keeps its invariant. */
  lemma BuildingStep(original: map<int, Percentage>, order: Order, entries: seq<Bucket>,
                     todo: set<Percentage>, last: map<real, Percentage>, v: Percentage)
    requires Building(original, order, entries, todo, last)
    requires v in todo && v.denominator != 0
    ensures Building(original, order, Put(entries, v, Holders(original, v), order).value, todo - {v},
                     last[Rank(order, v) := v])
  {
    var members := Holders(original, v);
    PutOrdered(entries, v, members, order);
    PutEntries(entries, v, members, order);
  }

  /** At the end of the loop, every ratio's bucket holds the balls of one percentage of that ratio. */
  lemma BuildingDone(original: map<int, Percentage>, order: Order, entries: seq<Bucket>, last: map<real, Percentage>)
    requires Building(original, order, entries, {}, last)
    ensures Ordered(entries, order) && Grouped(entries, original, order)
  {
    var m := Entries(entries, order);
    forall k | k in original
      ensures Rank(order, original[k]) in m
    {
      assert original[k] in original.Values;
    }
    forall x | x in m
      ensures exists v :: v in original.Values && Rank(order, v) == x && m[x].members == Holders(original, v)
    {
      assert last[x] in original.Values && Rank(order, last[x]) == x && m[x].members == Holders(original, last[x]);
    }
  }

  /**
   * `reverseMap`: for each distinct percentage of the table, in the hash set's order, the
   * keys holding it are put under it; `None` where a percentage cannot be compared.
   */
  method ReverseMap(original: map<int, Percentage>, order: Order) returns (r: Option<seq<Bucket>>)
    ensures r.Some? <==> forall k :: k in original ==> original[k].denominator != 0
    ensures r.Some? ==> Ordered(r.value, order) && Grouped(r.value, original, order)
  {
    var entries: seq<Bucket> := [];
    var todo := original.Values;
    ghost var last: map<real, Percentage> := map[];
    while todo != {}
      invariant Building(original, order, entries, todo, last)
      decreases |todo|
    {
      var v := Sets.Pick(todo);
      var members := KeysWith(original, v);
      var put := Put(entries, v, members, order);
      if put.None? {
        ghost var k := HolderOf(original, v);
        assert original[k].denominator == 0;
        return None;
      }
      BuildingStep(original, order, entries, todo, last, v);
      entries := put.value;
      last := last[Rank(order, v) := v];
      todo := todo - {v};
    }
    BuildingDone(original, order, entries, last);
    forall k | k in original
      ensures original[k].denominator != 0
    {
      assert original[k] in original.Values;
    }
    r := Some(entries);
  }

  /** For a sorted map, the rank lookup finds exactly the entries of the sequence. */
  lemma {:induction false} EntriesMembers(entries: seq<Bucket>, order: Order)
    requires Ordered(entries, order)
    ensures forall i :: 0 <= i < |entries| ==>
      Rank(order, entries[i].key) in Entries(entries, order) && Entries(entries, order)[Rank(order, entries[i].key)] == entries[i]
    ensures forall x :: x in Entries(entries, order) ==> Entries(entries, order)[x] in entries
  {
    if entries != [] {
      OrderedTail(entries, order);
      EntriesMembers(entries[1..], order);
      forall i | 1 <= i < |entries|
        ensures Entries(entries, order)[Rank(order, entries[i].key)] == entries[i]
      {
        assert entries[i] == entries[1..][i - 1];
      }
    }
  }

  /** No two different percentages of the table have the same ratio. */
  ghost predicate Distinguishable(original: map<int, Percentage>, order: Order) {
    forall a, b :: a in original.Values && b in original.Values && Rank(order, a) == Rank(order, b) ==> a == b
  }

  /**
   * Without two equal ratios in different fields, the buckets partition the keys of the
   * table: each ball is in the bucket of its own percentage, and in no other.
   */
  lemma Partition(entries: seq<Bucket>, original: map<int, Percentage>, order: Order)
    requires Ordered(entries, order) && Grouped(entries, original, order)
    requires Distinguishable(original, order)
    ensures forall k :: k in original ==> Bucket(original[k], Holders(original, original[k])) in entries
    ensures forall b, k :: b in entries && k in b.members ==> k in original && b.key == original[k]
    ensures forall i, j, k :: 0 <= i < j < |entries| && k in entries[i].members ==> k !in entries[j].members
  {
    var m := Entries(entries, order);
    EntriesMembers(entries, order);
    forall k | k in original
      ensures Bucket(original[k], Holders(original, original[k])) in entries
    {
      var x := Rank(order, original[k]);
      assert original[k] in original.Values;
      var v :| v in original.Values && Rank(order, v) == x && m[x].members == Holders(original, v);
      assert m[x] == Bucket(original[k], Holders(original, original[k]));
    }
    forall b, k | b in entries && k in b.members
      ensures k in original && b.key == original[k]
    {
      var x := Rank(order, b.key);
      var i :| 0 <= i < |entries| && entries[i] == b;
      assert m[x] == b;
      var v :| v in original.Values && Rank(order, v) == x && b.members == Holders(original, v);
      assert original[k] == v;
    }
  }

  /**
   * The key collision: 1/2 and 2/4 compare equal, so putting 2/4 after 1/2 keeps the key
   * 1/2 and replaces its balls, and ball 1 is lost.
   */
  lemma KeyCollision()
    ensures Put([], Percentage(1, 2), {1}, Hot) == Some([Bucket(Percentage(1, 2), {1})])
    ensures Put([Bucket(Percentage(1, 2), {1})], Percentage(2, 4), {2}, Hot) == Some([Bucket(Percentage(1, 2), {2})])
  {
    var half, quarters := Percentage(1, 2), Percentage(2, 4);
    assert Value(half) == 0.5 == Value(quarters);
    assert Compare(Hot, quarters, half) == Some(0);
    var entries := [Bucket(half, {1})];
    assert [Bucket(entries[0].key, {2})] + entries[1..] == [Bucket(half, {2})];
  }

  lemma {:induction false} MaxRangeUniform(draws: seq<Draw>, ball: Ball, range: int)
    requires forall i :: 0 <= i < |draws| ==> RangeOf(draws[i], ball) == range
    ensures MaxRange(draws, ball) <= if range > 0 then range else 0
  {
    if draws != [] {
      MaxRangeUniform(draws[..|draws| - 1], ball, range);
    }
  }

  /**
   * When every draw has the same range, every entry counts the same draws, so percentages
   * of one ratio are equal and no bucket is lost.
   */
  lemma UniformDistinguishable(draws: seq<Draw>, ball: Ball, range: int, order: Order)
    requires |draws| <= INT_MAX
    requires forall i :: 0 <= i < |draws| ==> RangeOf(draws[i], ball) == range
    ensures Distinguishable(Tallies(draws, ball), order)
  {
    var table := Tallies(draws, ball);
    TalliesComparable(draws, ball);
    MaxRangeUniform(draws, ball, range);
    forall a, b | a in table.Values && b in table.Values && Rank(order, a) == Rank(order, b)
      ensures a == b
    {
      var ka := HolderOf(table, a);
      var kb := HolderOf(table, b);
      CoveredByAll(draws, ball, range, ka);
      CoveredByAll(draws, ball, range, kb);
      CompareSameDenominator(a, b);
      assert Compare(order, a, b) == Some(0);
    }
  }

  // `getFinalResult`.

  /** The balls of a set from 1 to `theMax`: what the iterator in `getFinalResult` leaves. */
  function InRange(s: set<int>, theMax: int): (r: set<int>)
    ensures forall x :: x in r <==> x in s && 0 < x <= theMax
  {
    set x | x in s && 0 < x <= theMax
  }

  /** The inner loop of `getFinalResult`: every ball above `theMax` or not positive is removed. */
  method DropOutOfRange(result: set<int>, theMax: int) returns (kept: set<int>)
    ensures kept == InRange(result, theMax)
  {
    kept := result;
    var todo := result;
    while todo != {}
      invariant todo <= result
      invariant forall x :: x in kept <==> x in result && (x in todo || 0 < x <= theMax)
      decreases |todo|
    {
      var next := Sets.Pick(todo);
      if next > theMax || next <= 0 {
        kept := kept - {next};
      }
      todo := todo - {next};
    }
    assert forall x :: x in kept <==> x in InRange(result, theMax);
  }

  /** What `getFinalResult` has collected from the buckets, taken in order. */
  function Gathered(buckets: seq<Bucket>, theSize: int, theMax: int): set<int> {
    if buckets == [] then {}
    else
      var acc := Gathered(buckets[..|buckets| - 1], theSize, theMax);
      if |acc| < theSize then InRange(acc + buckets[|buckets| - 1].members, theMax) else acc
  }

  /**
   * `getFinalResult`: while the result holds fewer than `theSize` balls, the next bucket is
   * added whole and the balls out of range are removed again.
   */
  method FinalResult(buckets: seq<Bucket>, theSize: int, theMax: int) returns (result: set<int>)
    ensures result == Gathered(buckets, theSize, theMax)
  {
    result := {};
    for i := 0 to |buckets|
      invariant result == Gathered(buckets[..i], theSize, theMax)
    {
      Snoc(buckets, i);
      if |result| < theSize {
        result := result + buckets[i].members;
        result := DropOutOfRange(result, theMax);
      }
    }
    assert buckets[..|buckets|] == buckets;
  }

  /** Every ball the buckets hold. */
  function Union(buckets: seq<Bucket>): (s: set<int>)
    ensures forall i, x :: 0 <= i < |buckets| && x in buckets[i].members ==> x in s
  {
    if buckets == [] then {} else Union(buckets[..|buckets| - 1]) + buckets[|buckets| - 1].members
  }

  /** The result never holds a ball above the range or below 1. */
  lemma {:induction false} GatheredInRange(buckets: seq<Bucket>, theSize: int, theMax: int)
    ensures forall x :: x in Gathered(buckets, theSize, theMax) ==> 0 < x <= theMax
  {
    if buckets != [] {
      GatheredInRange(buckets[..|buckets| - 1], theSize, theMax);
    }
  }

  lemma PrefixOfPrefix<T>(s: seq<T>, n: nat, i: nat)
    requires i <= n <= |s|
    ensures s[..n][..i] == s[..i]
  {
  }

  /**
   * The result is the first `j` buckets, ranged: each of them was taken because fewer than
   * `theSize` balls had been collected before it, and the buckets after them were not,
   * because `theSize` had been reached. The result may hold more than `theSize`.
   */
  lemma {:induction false} GatheredPrefix(buckets: seq<Bucket>, theSize: int, theMax: int) returns (j: nat)
    ensures j <= |buckets|
    ensures Gathered(buckets, theSize, theMax) == InRange(Union(buckets[..j]), theMax)
    ensures Short(buckets, j, theSize, theMax)
    ensures j < |buckets| ==> |Gathered(buckets, theSize, theMax)| >= theSize
  {
    if buckets == [] {
      j := 0;
    } else {
      var n := |buckets|;
      var front := buckets[..n - 1];
      var j0 := GatheredPrefix(front, theSize, theMax);
      PrefixOfPrefix(buckets, n - 1, j0);
      ShortOfFront(buckets, n - 1, j0, theSize, theMax);
      var acc := Gathered(front, theSize, theMax);
      if |acc| < theSize {
        j := n;
        assert buckets[..n] == buckets;
        assert InRange(acc + buckets[n - 1].members, theMax) == InRange(Union(buckets), theMax) by {
          assert Union(buckets) == Union(front) + buckets[n - 1].members;
        }
        ShortExtend(buckets, n - 1, theSize, theMax);
      } else {
        j := j0;
      }
    }
  }

  /** Fewer than `theSize` balls were collected before each of the first `j` buckets. */
  ghost predicate Short(buckets: seq<Bucket>, j: int, theSize: int, theMax: int) {
    forall i :: 0 <= i < j && i <= |buckets| ==> |InRange(Union(buckets[..i]), theMax)| < theSize
  }

  lemma ShortOfFront(buckets: seq<Bucket>, n: nat, j: int, theSize: int, theMax: int)
    requires j <= n <= |buckets| && Short(buckets[..n], j, theSize, theMax)
    ensures Short(buckets, j, theSize, theMax)
  {
    forall i | 0 <= i < j && i <= |buckets|
      ensures |InRange(Union(buckets[..i]), theMax)| < theSize
    {
      PrefixOfPrefix(buckets, n, i);
    }
  }

  lemma ShortExtend(buckets: seq<Bucket>, n: nat, theSize: int, theMax: int)
    requires n < |buckets| && Short(buckets, n, theSize, theMax)
    requires |InRange(Union(buckets[..n]), theMax)| < theSize
    ensures Short(buckets, n + 1, theSize, theMax)
  {
  }

  /** One bucket larger than the size asked for is taken whole: 3 balls where 2 were asked for. */
  lemma Overshoot()
    ensures Gathered([Bucket(Percentage(1, 1), {1, 2, 3})], 2, 49) == {1, 2, 3}
  {
    var bs := [Bucket(Percentage(1, 1), {1, 2, 3})];
    assert bs[..0] == [];
    assert InRange({} + {1, 2, 3}, 49) == {1, 2, 3};
  }

  // The four public picks.

  /**
   * What a pick returns: `None` where a percentage of the table cannot be compared, and
   * otherwise what `getFinalResult` takes from the buckets `reverseMap` leaves.
   */
  ghost predicate Selection(r: Option<set<int>>, draws: seq<Draw>, ball: Ball, order: Order, theSize: int, theMax: int) {
    var table := Tallies(draws, ball);
    (r.Some? <==> forall k :: k in table ==> table[k].denominator != 0)
    && (r.Some? ==> exists buckets :: Ordered(buckets, order) && Grouped(buckets, table, order)
                                      && r.value == Gathered(buckets, theSize, theMax))
  }

  /** The three steps every pick takes. */
  method Choose(draws: seq<Draw>, ball: Ball, order: Order, theSize: int, theMax: int) returns (r: Option<set<int>>)
    ensures Selection(r, draws, ball, order, theSize, theMax)
  {
    var count := Count(draws, ball);
    var buckets := ReverseMap(count, order);
    if buckets.None? {
      return None;
    }
    var result := FinalResult(buckets.value, theSize, theMax);
    r := Some(result);
  }

  /** On fewer than 2^31 draws a pick always succeeds, and holds only balls of the range. */
  lemma SelectionFacts(r: Option<set<int>>, draws: seq<Draw>, ball: Ball, order: Order, theSize: int, theMax: int)
    requires Selection(r, draws, ball, order, theSize, theMax)
    requires |draws| <= INT_MAX
    ensures r.Some?
    ensures forall x :: x in r.value ==> 1 <= x <= theMax
  {
    TalliesComparable(draws, ball);
    var buckets :| Ordered(buckets, order) && Grouped(buckets, Tallies(draws, ball), order)
                   && r.value == Gathered(buckets, theSize, theMax);
    GatheredInRange(buckets, theSize, theMax);
  }

  /** `getHotNumbers`: the most frequent main balls, at least as many as a draw holds. */
  method GetHotNumbers(game: Game, draws: seq<Draw>) returns (r: Option<set<int>>)
    ensures Selection(r, draws, Main, Hot, NumberOfBalls(game), Range(game))
  {
    r := Choose(draws, Main, Hot, NumberOfBalls(game), Range(game));
  }

  /** `getColdNumbers`: the least frequent main balls. */
  method GetColdNumbers(game: Game, draws: seq<Draw>) returns (r: Option<set<int>>)
    ensures Selection(r, draws, Main, Cold, NumberOfBalls(game), Range(game))
  {
    r := Choose(draws, Main, Cold, NumberOfBalls(game), Range(game));
  }

  /** `getHotBonusBalls`: the most frequent bonus balls. */
  method GetHotBonusBalls(game: Game, draws: seq<Draw>) returns (r: Option<set<int>>)
    requires HasBonusBall(game)
    ensures Selection(r, draws, Bonus, Hot, NumberOfBonusBalls(game), BonusBallRange(game))
  {
    r := Choose(draws, Bonus, Hot, NumberOfBonusBalls(game), BonusBallRange(game));
  }

  /** `getColdBonusBalls`: the least frequent bonus balls. */
  method GetColdBonusBalls(game: Game, draws: seq<Draw>) returns (r: Option<set<int>>)
    requires HasBonusBall(game)
    ensures Selection(r, draws, Bonus, Cold, NumberOfBonusBalls(game), BonusBallRange(game))
  {
    r := Choose(draws, Bonus, Cold, NumberOfBonusBalls(game), BonusBallRange(game));
  }

  // The periodic picks, over the records of the data file, newest first.

  /** `weekFreq - 1`: the record the periodic pick reads, counting from 0. */
  function PeriodIndex(game: Game): (p: int)
    ensures 0 <= p
    ensures (p + 1) * NumberOfBalls(game) <= Range(game) < (p + 2) * NumberOfBalls(game)
  {
    Range(game) / NumberOfBalls(game) - 1
  }

  lemma PeriodIndices()
    ensures PeriodIndex(WALotto) == 7 && PeriodIndex(MegaMillions) == 14 && PeriodIndex(PowerBall) == 10
  {
  }

  /**
   * The whole numbers a record's line holds after its date, in order: its balls, then its
   * bonus ball, which the line holds only when positive.
   */
  function LineInts(d: Draw): seq<int> {
    d.numbers + if d.bonusBall > 0 then [d.bonusBall] else []
  }

  /** The period's record: `None` where the file runs out of lines first. */
  method PeriodRecord(game: Game, records: seq<Draw>) returns (r: Option<Draw>)
    ensures r.Some? <==> PeriodIndex(game) < |records|
    ensures r.Some? ==> r.value == records[PeriodIndex(game)]
  {
    var weekFreq := Range(game) / NumberOfBalls(game);
    var line := 0;
    while line < weekFreq - 1
      invariant 0 <= line <= if weekFreq >= 1 then weekFreq - 1 else 0
      invariant line <= |records|
    {
      if line == |records| {
        return None;
      }
      line := line + 1;
    }
    if line == |records| {
      return None;
    }
    r := Some(records[line]);
  }

  /**
   * `getPeriodicNumbers`: the first `getNumberOfBalls` whole numbers of the period's record;
   * `None` where the file or the line runs out first.
   */
  method GetPeriodicNumbers(game: Game, records: seq<Draw>) returns (r: Option<set<int>>)
    ensures r.Some? <==> PeriodIndex(game) < |records| && NumberOfBalls(game) <= |LineInts(records[PeriodIndex(game)])|
    ensures r.Some? ==> r.value == set i | 0 <= i < NumberOfBalls(game) :: LineInts(records[PeriodIndex(game)])[i]
  {
    var record := PeriodRecord(game, records);
    if record.None? {
      return None;
    }
    var ints := LineInts(record.value);
    var result := {};
    for i := 0 to NumberOfBalls(game)
      invariant i <= |ints|
      invariant result == set j | 0 <= j < i :: ints[j]
    {
      if i == |ints| {
        return None;
      }
      result := result + {ints[i]};
    }
    r := Some(result);
  }

  /**
   * `getPeriodicBonusBalls`: the whole number after the first `getNumberOfBalls` of the
   * period's record, which is its bonus ball when the record holds that many balls.
   */
  method GetPeriodicBonusBalls(game: Game, records: seq<Draw>) returns (r: Option<set<int>>)
    requires HasBonusBall(game)
    ensures r.Some? <==> PeriodIndex(game) < |records| && NumberOfBalls(game) < |LineInts(records[PeriodIndex(game)])|
    ensures r.Some? ==> r.value == {LineInts(records[PeriodIndex(game)])[NumberOfBalls(game)]}
  {
    var record := PeriodRecord(game, records);
    if record.None? {
      return None;
    }
    var ints := LineInts(record.value);
    for i := 0 to NumberOfBalls(game)
      invariant i <= |ints|
    {
      if i == |ints| {
        return None;
      }
    }
    if NumberOfBalls(game) == |ints| {
      return None;
    }
    r := Some({ints[NumberOfBalls(game)]});
  }

  /** A record of the game's shape gives its balls and its bonus ball. */
  lemma PeriodicOfRecord(game: Game, d: Draw)
    requires |d.numbers| == NumberOfBalls(game) && d.bonusBall > 0
    ensures (set i | 0 <= i < NumberOfBalls(game) :: LineInts(d)[i]) == set x | x in d.numbers
    ensures LineInts(d)[NumberOfBalls(game)] == d.bonusBall
  {
    forall x | x in d.numbers
      ensures x in set i | 0 <= i < NumberOfBalls(game) :: LineInts(d)[i]
    {
      var i :| 0 <= i < |d.numbers| && d.numbers[i] == x;
      assert LineInts(d)[i] == x;
    }
  }
}
