/**
 * `controller.Combinations`: the wheel of a set of numbers (every way of picking `k` of them),
 * the lines it prints with the bonus balls looped onto the end, and its plain listing.
 */
module Combinations {
  import opened Wrappers
  import opened JavaNumbers
  import opened Strings
  import Sets
  import ArrayUtils
  import NumberUtils

  const SPACE := ' '
  const MS_NEWLINE := "\r\n"
  const BONUS_SEPARATOR := " | "

  // ---------------------------------------------------------------------------------------------
  // Sets of numbers as ascending sequences: `Arrays.sort` on an array filled from a set, and the
  // iteration order of a `TreeSet`.

  predicate Increasing(xs: seq<int>) {
    forall i, j :: 0 <= i < j < |xs| ==> xs[i] < xs[j]
  }

  predicate Distinct(xs: seq<int>) {
    forall i, j :: 0 <= i < j < |xs| ==> xs[i] != xs[j]
  }

  function Elems(xs: seq<int>): set<int> {
    set x | x in xs
  }

  ghost function Any<T>(s: set<T>): T
    requires s != {}
  {
    var x :| x in s; x
  }

  /** The smallest member of a non-empty set. */
  ghost function Least(s: set<int>): (m: int)
    requires s != {}
    ensures m in s && forall y :: y in s ==> m <= y
    decreases |s|
  {
    var x := Any(s);
    if s == {x} then x
    else
      var r := Least(s - {x});
      assert forall y :: y in s ==> y == x || y in s - {x};
      if x < r then x else r
  }

  /** The members of `s`, smallest first. */
  ghost function Ascending(s: set<int>): seq<int>
    decreases |s|
  {
    if s == {} then []
    else
      var m := Least(s);
      [m] + Ascending(s - {m})
  }

  /** `Ascending(s)` lists every member of `s` once, in increasing order. */
  lemma {:induction false} AscendingSorted(s: set<int>)
    ensures Increasing(Ascending(s)) && Elems(Ascending(s)) == s && |Ascending(s)| == |s|
    decreases |s|
  {
    if s != {} {
      var m := Least(s);
      AscendingSorted(s - {m});
      AscendingCons(s, m, Ascending(s - {m}));
    }
  }

  lemma AscendingCons(s: set<int>, m: int, rest: seq<int>)
    requires m in s && forall y :: y in s ==> m <= y
    requires Increasing(rest) && Elems(rest) == s - {m} && |rest| == |s - {m}|
    ensures Increasing([m] + rest) && Elems([m] + rest) == s && |[m] + rest| == |s|
  {
    var xs := [m] + rest;
    forall i, j | 0 <= i < j < |xs| ensures xs[i] < xs[j] {
      assert xs[j] == rest[j - 1] && rest[j - 1] in Elems(rest);
      if i > 0 {
        assert xs[i] == rest[i - 1];
      }
    }
    assert Elems(xs) == {m} + Elems(rest);
  }

  lemma Regroup<T>(a: seq<T>, x: T, b: seq<T>)
    ensures a + ([x] + b) == (a + [x]) + b
  {
  }

  /** Scanning a set for its least member. */
  method MinOf(s: set<int>) returns (m: int)
    requires s != {}
    ensures m == Least(s)
  {
    m := Sets.Pick(s);
    var rest := s - {m};
    while rest != {}
      invariant rest <= s && m in s
      invariant forall y :: y in s && y !in rest ==> m <= y
      decreases |rest|
    {
      var y := Sets.Pick(rest);
      if y < m {
        m := y;
      }
      rest := rest - {y};
    }
    assert m <= Least(s) && Least(s) <= m;
  }

  /** Iterating a `TreeSet` hands out its members smallest first. */
  method AscendingOf(s: set<int>) returns (xs: seq<int>)
    ensures xs == Ascending(s)
  {
    xs := [];
    var rest := s;
    while rest != {}
      invariant xs + Ascending(rest) == Ascending(s)
      decreases |rest|
    {
      var m := MinOf(rest);
      Regroup(xs, m, Ascending(rest - {m}));
      xs := xs + [m];
      rest := rest - {m};
    }
    assert xs + [] == xs;
  }

  lemma {:induction false} DistinctCard(xs: seq<int>)
    requires Distinct(xs)
    ensures |Elems(xs)| == |xs|
  {
    if xs != [] {
      var init := xs[..|xs| - 1];
      var x := xs[|xs| - 1];
      assert Distinct(init);
      DistinctCard(init);
      assert xs == init + [x];
      assert Elems(xs) == Elems(init) + {x};
      assert x !in Elems(init) by {
        forall i | 0 <= i < |init| ensures init[i] != x {
          assert init[i] == xs[i];
        }
      }
    }
  }

  /** The loop that copies a set into a new array, in the set's iteration order. */
  method FillArray(s: set<int>) returns (a: array<int>)
    ensures fresh(a) && a.Length == |s| && Distinct(a[..]) && Elems(a[..]) == s
  {
    a := new int[|s|];
    var rest := s;
    var i := 0;
    while rest != {}
      invariant 0 <= i <= a.Length && rest <= s && |rest| == a.Length - i
      invariant Elems(a[..i]) == s - rest
      invariant Distinct(a[..i])
      decreases |rest|
    {
      var x := Sets.Pick(rest);
      ghost var prefix := a[..i];
      FillStep(prefix, x, s, rest);
      a[i] := x;
      assert a[..i + 1] == prefix + [x];
      i := i + 1;
      rest := rest - {x};
    }
    assert a[..i] == a[..];
  }

  /** One more member of `rest` copied: the copy still holds each member once. */
  lemma FillStep(xs: seq<int>, x: int, s: set<int>, rest: set<int>)
    requires Elems(xs) == s - rest && Distinct(xs) && x in rest && rest <= s
    ensures Elems(xs + [x]) == s - (rest - {x}) && Distinct(xs + [x])
  {
    assert Elems(xs + [x]) == Elems(xs) + {x};
    assert x !in xs;
  }

  /**
   * `Arrays.sort` on an array of distinct numbers: afterwards it holds the same numbers in
   * ascending order.
   */
  method Sort(a: array<int>)
    requires Distinct(a[..])
    modifies a
    ensures a[..] == Ascending(Elems(old(a[..])))
  {
    DistinctCard(a[..]);
    AscendingSorted(Elems(a[..]));
    var xs := AscendingOf(Elems(a[..]));
    for i := 0 to a.Length
      invariant a[..i] == xs[..i]
    {
      a[i] := xs[i];
    }
    assert a[..] == a[..a.Length];
  }

  /** The array a `Combinations` constructor builds from a set: its members, sorted. */
  method SortedArray(s: set<int>) returns (a: array<int>)
    ensures fresh(a) && a[..] == Ascending(s) && Increasing(a[..])
  {
    a := FillArray(s);
    Sort(a);
    AscendingSorted(s);
  }

  // ---------------------------------------------------------------------------------------------
  // The wheel.

  /**
   * What the recursive `getCombos(howManyLeftToAdd, lastUsedIndex, result)` returns when its loop
   * has reached index `j` and the shared set holds `chosen`. Each step adds `arr[j]` to the set,
   * emits (or recurses on) a copy, and then removes `arr[j]` again; with repetition the recursion
   * may pick `arr[j]` a second time, and the removal then also takes out the earlier pick.
   */
  function Wheel(arr: seq<int>, rep: bool, left: int, j: int, chosen: set<int>): seq<set<int>>
    requires left >= 1 && j >= 0
    decreases left, |arr| - j
  {
    if left == 1 then
      if j >= |arr| then []
      else [chosen + {arr[j]}] + Wheel(arr, rep, 1, j + 1, chosen + {arr[j]} - {arr[j]})
    else if j >= |arr| - left + 1 then []
    else
      var next := chosen + {arr[j]};
      Wheel(arr, rep, left - 1, if rep then j else j + 1, next)
        + Wheel(arr, rep, left, j + 1, next - {arr[j]})
  }

  /** `c` added to every set of `xs`. */
  function Extend(c: set<int>, xs: seq<set<int>>): (r: seq<set<int>>)
    ensures |r| == |xs|
    ensures forall i :: 0 <= i < |xs| ==> r[i] == c + xs[i]
  {
    seq(|xs|, i requires 0 <= i < |xs| => c + xs[i])
  }

  /** The `k`-element subsets of `s`, those holding `s[0]` first. */
  function Choose(s: seq<int>, k: nat): seq<set<int>>
    decreases |s|
  {
    if k == 0 then [{}]
    else if |s| < k then []
    else Extend({s[0]}, Choose(s[1..], k - 1)) + Choose(s[1..], k)
  }

  function Binomial(n: nat, k: nat): nat {
    if k == 0 then 1
    else if n < k then 0
    else Binomial(n - 1, k - 1) + Binomial(n - 1, k)
  }

  predicate Unique(xs: seq<set<int>>) {
    forall i, j :: 0 <= i < j < |xs| ==> xs[i] != xs[j]
  }

  lemma ExtendAppend(c: set<int>, a: seq<set<int>>, b: seq<set<int>>)
    ensures Extend(c, a + b) == Extend(c, a) + Extend(c, b)
  {
    var l, r := Extend(c, a + b), Extend(c, a) + Extend(c, b);
    forall i | 0 <= i < |l| ensures l[i] == r[i] {
      if i < |a| {
        assert (a + b)[i] == a[i];
      } else {
        assert (a + b)[i] == b[i - |a|];
      }
    }
  }

  /** Extending by `d` and then by `c` extends by their union. */
  lemma ExtendExtend(c: set<int>, d: set<int>, xs: seq<set<int>>)
    ensures Extend(c, Extend(d, xs)) == Extend(c + d, xs)
  {
    var l, r := Extend(c, Extend(d, xs)), Extend(c + d, xs);
    forall i | 0 <= i < |l| ensures l[i] == r[i] {
      assert c + (d + xs[i]) == (c + d) + xs[i];
    }
  }

  /** Without repetition the wheel from index `j` is `chosen` joined to each subset of the rest. */
  lemma {:induction false} WheelChoose(arr: seq<int>, left: int, j: int, chosen: set<int>)
    requires Distinct(arr) && left >= 1 && 0 <= j <= |arr|
    requires forall i :: j <= i < |arr| ==> arr[i] !in chosen
    ensures Wheel(arr, false, left, j, chosen) == Extend(chosen, Choose(arr[j..], left))
    decreases left, |arr| - j
  {
    var s := arr[j..];
    if j < |arr| && j < |arr| - left + 1 {
      var a := arr[j];
      assert s[0] == a && s[1..] == arr[j + 1..];
      assert chosen + {a} - {a} == chosen;
      WheelChoose(arr, left, j + 1, chosen);
      if left == 1 {
        assert Choose(s, 1) == Extend({a}, [{}]) + Choose(arr[j + 1..], 1);
        assert Extend({a}, [{}])[0] == {a} + {} == {a};
        assert Extend({a}, [{}]) == [{a}];
        ExtendAppend(chosen, [{a}], Choose(arr[j + 1..], 1));
      } else {
        WheelChoose(arr, left - 1, j + 1, chosen + {a});
        var c1, c2 := Choose(arr[j + 1..], left - 1), Choose(arr[j + 1..], left);
        ExtendAppend(chosen, Extend({a}, c1), c2);
        ExtendExtend(chosen, {a}, c1);
      }
    }
  }

  lemma {:induction false} ChooseCount(s: seq<int>, k: nat)
    ensures |Choose(s, k)| == Binomial(|s|, k)
    decreases |s|
  {
    if k > 0 && |s| >= k {
      var t := s[1..];
      ChooseCount(t, k - 1);
      ChooseCount(t, k);
      assert |Choose(s, k)| == |Extend({s[0]}, Choose(t, k - 1))| + |Choose(t, k)|;
    }
  }

  lemma ElemsCons(s: seq<int>)
    requires s != []
    ensures Elems(s) == {s[0]} + Elems(s[1..])
  {
    assert s == [s[0]] + s[1..];
  }

  lemma ElemsBound(s: seq<int>)
    ensures |Elems(s)| <= |s|
  {
    if s != [] {
      ElemsCons(s);
      ElemsBound(s[1..]);
    }
  }

  /** On distinct numbers every subset the enumeration lists has `k` members drawn from `s`. */
  lemma {:induction false} ChooseMembers(s: seq<int>, k: nat)
    requires Distinct(s)
    ensures forall c :: c in Choose(s, k) ==> c <= Elems(s) && |c| == k
    decreases |s|
  {
    if k > 0 && |s| >= k {
      var t := s[1..];
      assert Distinct(t);
      ElemsCons(s);
      assert s[0] !in Elems(t);
      ChooseMembers(t, k - 1);
      ChooseMembers(t, k);
      MembersStep(s[0], Elems(t), Choose(t, k - 1), Choose(t, k), k);
    }
  }

  /** Adding `x` to sets of `k - 1` members of `e` that lack it gives sets of `k` members. */
  lemma MembersStep(x: int, e: set<int>, c1: seq<set<int>>, c2: seq<set<int>>, k: nat)
    requires x !in e && k > 0
    requires forall c :: c in c1 ==> c <= e && |c| == k - 1
    requires forall c :: c in c2 ==> c <= e && |c| == k
    ensures forall c :: c in Extend({x}, c1) + c2 ==> c <= {x} + e && |c| == k
  {
    forall c | c in Extend({x}, c1) ensures c <= {x} + e && |c| == k {
      var i :| 0 <= i < |c1| && c == Extend({x}, c1)[i];
      assert c1[i] in c1;
    }
  }

  /** Every `k`-subset of `s` is listed. */
  lemma {:induction false} ChooseComplete(s: seq<int>, k: nat, c: set<int>)
    requires c <= Elems(s) && |c| == k
    ensures c in Choose(s, k)
    decreases |s|
  {
    if k == 0 {
      assert c == {};
    } else if |s| < k {
      ElemsBound(s);
      Subsets(c, Elems(s));
    } else {
      var t := s[1..];
      ChooseRest(s, c);
      if s[0] in c {
        ChooseComplete(t, k - 1, c - {s[0]});
      } else {
        ChooseComplete(t, k, c);
      }
      ChooseStep(s, k, c);
    }
  }

  /** A set whose remainder the rest of `s` lists is listed by `s`. */
  lemma ChooseStep(s: seq<int>, k: nat, c: set<int>)
    requires 0 < k <= |s|
    requires s[0] in c ==> c - {s[0]} in Choose(s[1..], k - 1)
    requires s[0] !in c ==> c in Choose(s[1..], k)
    ensures c in Choose(s, k)
  {
    var t := s[1..];
    assert Choose(s, k) == Extend({s[0]}, Choose(t, k - 1)) + Choose(t, k);
    if s[0] in c {
      PutBack(s[0], c, Choose(t, k - 1));
    }
  }

  /** What is left of a subset of `s` once `s[0]` is set aside is a subset of the rest. */
  lemma ChooseRest(s: seq<int>, c: set<int>)
    requires s != [] && c <= Elems(s)
    ensures c - {s[0]} <= Elems(s[1..])
    ensures s[0] in c ==> |c - {s[0]}| == |c| - 1
  {
    ElemsCons(s);
  }

  /** A set one of whose members `x` is set aside is found again by putting `x` back. */
  lemma PutBack(x: int, c: set<int>, xs: seq<set<int>>)
    requires x in c && c - {x} in xs
    ensures c in Extend({x}, xs)
  {
    ExtendHas({x}, xs, c - {x});
    assert {x} + (c - {x}) == c;
  }

  lemma ExtendHas(c: set<int>, xs: seq<set<int>>, x: set<int>)
    requires x in xs
    ensures c + x in Extend(c, xs)
  {
    var i :| 0 <= i < |xs| && xs[i] == x;
    assert Extend(c, xs)[i] == c + x;
  }

  lemma Subsets(a: set<int>, b: set<int>)
    requires a <= b
    ensures |a| <= |b|
  {
    assert b == a + (b - a);
  }

  /** Adding a number none of the sets holds keeps them apart. */
  lemma ExtendUnique(a: int, xs: seq<set<int>>)
    requires Unique(xs) && forall i :: 0 <= i < |xs| ==> a !in xs[i]
    ensures Unique(Extend({a}, xs))
  {
    var e := Extend({a}, xs);
    forall i, j | 0 <= i < j < |e| ensures e[i] != e[j] {
      assert e[i] - {a} == xs[i] && e[j] - {a} == xs[j];
    }
  }

  lemma AppendUnique(xs: seq<set<int>>, ys: seq<set<int>>)
    requires Unique(xs) && Unique(ys)
    requires forall i, j :: 0 <= i < |xs| && 0 <= j < |ys| ==> xs[i] != ys[j]
    ensures Unique(xs + ys)
  {
    var zs := xs + ys;
    forall i, j | 0 <= i < j < |zs| ensures zs[i] != zs[j] {
      if j < |xs| {
        assert zs[i] == xs[i] && zs[j] == xs[j];
      } else if i < |xs| {
        assert zs[i] == xs[i] && zs[j] == ys[j - |xs|];
      } else {
        assert zs[i] == ys[i - |xs|] && zs[j] == ys[j - |xs|];
      }
    }
  }

  /** No subset is listed twice. */
  lemma {:induction false} ChooseUnique(s: seq<int>, k: nat)
    requires Distinct(s)
    ensures Unique(Choose(s, k))
    decreases |s|
  {
    if k > 0 && |s| >= k {
      var t := s[1..];
      assert Distinct(t);
      ElemsCons(s);
      ChooseUnique(t, k - 1);
      ChooseUnique(t, k);
      ChooseMembers(t, k - 1);
      ChooseMembers(t, k);
      assert s[0] !in Elems(t);
      UniqueStep(s[0], Elems(t), Choose(t, k - 1), Choose(t, k));
    }
  }

  /** Sets that hold `x` and sets that do not are never equal. */
  lemma UniqueStep(x: int, e: set<int>, c1: seq<set<int>>, c2: seq<set<int>>)
    requires x !in e && Unique(c1) && Unique(c2)
    requires forall c :: c in c1 ==> c <= e
    requires forall c :: c in c2 ==> c <= e
    ensures Unique(Extend({x}, c1) + c2)
  {
    assert forall i :: 0 <= i < |c1| ==> x !in c1[i] by {
      forall i | 0 <= i < |c1| ensures x !in c1[i] {
        assert c1[i] in c1;
      }
    }
    ExtendUnique(x, c1);
    var ext := Extend({x}, c1);
    forall i, j | 0 <= i < |ext| && 0 <= j < |c2| ensures ext[i] != c2[j] {
      assert c2[j] in c2;
      assert x in ext[i] && x !in c2[j];
    }
    AppendUnique(ext, c2);
  }

  /** `a` comes before `b` in dictionary order (the first difference decides). */
  predicate LexLess(a: seq<int>, b: seq<int>)
    decreases |a|
  {
    a != [] && b != [] && (a[0] < b[0] || (a[0] == b[0] && LexLess(a[1..], b[1..])))
  }

  lemma LexCons(x: int, a: seq<int>, b: seq<int>)
    requires LexLess(a, b)
    ensures LexLess([x] + a, [x] + b)
  {
    assert ([x] + a)[1..] == a && ([x] + b)[1..] == b;
  }

  lemma LexFirst(a: seq<int>, b: seq<int>)
    requires a != [] && b != [] && a[0] < b[0]
    ensures LexLess(a, b)
  {
  }

  lemma IncreasingDistinct(s: seq<int>)
    requires Increasing(s)
    ensures Distinct(s)
  {
  }

  /** A number below every member of `c` leads the ascending sequence of `{x} + c`. */
  lemma AscendingAdd(x: int, c: set<int>)
    requires Above(x, c)
    ensures Ascending({x} + c) == [x] + Ascending(c)
  {
    var s := {x} + c;
    assert Least(s) <= x && x <= Least(s);
    assert s - {x} == c;
  }

  predicate LexSorted(xss: seq<seq<int>>) {
    forall i, j :: 0 <= i < j < |xss| ==> LexLess(xss[i], xss[j])
  }

  /** The ascending sequence of each set. */
  ghost function Asc(cs: seq<set<int>>): (r: seq<seq<int>>)
    ensures |r| == |cs| && forall i :: 0 <= i < |cs| ==> r[i] == Ascending(cs[i])
  {
    seq(|cs|, i requires 0 <= i < |cs| => Ascending(cs[i]))
  }

  function ConsAll(x: int, xss: seq<seq<int>>): (r: seq<seq<int>>)
    ensures |r| == |xss| && forall i :: 0 <= i < |xss| ==> r[i] == [x] + xss[i]
  {
    seq(|xss|, i requires 0 <= i < |xss| => [x] + xss[i])
  }

  lemma ConsAllSorted(x: int, xss: seq<seq<int>>)
    requires LexSorted(xss)
    ensures LexSorted(ConsAll(x, xss))
  {
    forall i, j | 0 <= i < j < |xss| ensures LexLess(ConsAll(x, xss)[i], ConsAll(x, xss)[j]) {
      LexCons(x, xss[i], xss[j]);
    }
  }

  lemma JoinSorted(x: int, a0: seq<seq<int>>, b: seq<seq<int>>)
    requires LexSorted(a0) && LexSorted(b)
    requires forall j :: 0 <= j < |b| ==> b[j] != [] && b[j][0] > x
    ensures LexSorted(ConsAll(x, a0) + b)
  {
    ConsAllSorted(x, a0);
    var a := ConsAll(x, a0);
    var all := a + b;
    forall i, j | 0 <= i < j < |all| ensures LexLess(all[i], all[j]) {
      if j < |a| {
        assert all[i] == a[i] && all[j] == a[j];
      } else if i < |a| {
        assert all[i] == a[i] && all[j] == b[j - |a|];
        LexFirst(a[i], b[j - |a|]);
      } else {
        assert all[i] == b[i - |a|] && all[j] == b[j - |a|];
      }
    }
  }

  /** Every member of `c` is above `x`. */
  predicate Above(x: int, c: set<int>) {
    forall y :: y in c ==> x < y
  }

  lemma AscExtend(x: int, c: seq<set<int>>)
    requires forall i :: 0 <= i < |c| ==> Above(x, c[i])
    ensures Asc(Extend({x}, c)) == ConsAll(x, Asc(c))
  {
    var l, r := Asc(Extend({x}, c)), ConsAll(x, Asc(c));
    forall i | 0 <= i < |l| ensures l[i] == r[i] {
      AscendingAdd(x, c[i]);
    }
  }

  lemma AscAppend(a: seq<set<int>>, b: seq<set<int>>)
    ensures Asc(a + b) == Asc(a) + Asc(b)
  {
    var l, r := Asc(a + b), Asc(a) + Asc(b);
    forall i | 0 <= i < |l| ensures l[i] == r[i] {
      if i < |a| {
        assert (a + b)[i] == a[i];
      } else {
        assert (a + b)[i] == b[i - |a|];
      }
    }
  }

  lemma AscJoin(x: int, c1: seq<set<int>>, c2: seq<set<int>>)
    requires forall i :: 0 <= i < |c1| ==> Above(x, c1[i])
    ensures Asc(Extend({x}, c1) + c2) == ConsAll(x, Asc(c1)) + Asc(c2)
  {
    AscAppend(Extend({x}, c1), c2);
    AscExtend(x, c1);
  }

  /** Every member of `t` is above `x`. */
  predicate Below(x: int, t: seq<int>) {
    forall m :: 0 <= m < |t| ==> x < t[m]
  }

  /** Every chosen subset is drawn from `s`. */
  lemma {:induction false} ChooseWithin(s: seq<int>, k: nat)
    ensures forall i :: 0 <= i < |Choose(s, k)| ==> Choose(s, k)[i] <= Elems(s)
    decreases |s|
  {
    if k > 0 && |s| >= k {
      var t := s[1..];
      ChooseWithin(t, k - 1);
      ChooseWithin(t, k);
      ElemsCons(s);
      var c1, c2 := Choose(t, k - 1), Choose(t, k);
      var e := Extend({s[0]}, c1);
      forall i | 0 <= i < |e + c2| ensures (e + c2)[i] <= Elems(s) {
        if i < |e| {
          assert (e + c2)[i] == {s[0]} + c1[i];
        } else {
          assert (e + c2)[i] == c2[i - |e|];
        }
      }
    }
  }

  /** The subsets drawn from numbers above `x` lie above `x`. */
  lemma ChooseAbove(x: int, t: seq<int>, k: nat)
    requires Below(x, t)
    ensures forall i :: 0 <= i < |Choose(t, k)| ==> Above(x, Choose(t, k)[i])
  {
    ChooseWithin(t, k);
  }

  /** `Choose` on ascending sequences instead of sets. */
  function ChooseSeqs(s: seq<int>, k: nat): seq<seq<int>>
    decreases |s|
  {
    if k == 0 then [[]]
    else if |s| < k then []
    else ConsAll(s[0], ChooseSeqs(s[1..], k - 1)) + ChooseSeqs(s[1..], k)
  }

  /** Every non-empty choice from numbers above `x` starts above `x`. */
  lemma {:induction false} ChooseSeqsHeads(x: int, s: seq<int>, k: nat)
    requires k > 0 && forall m :: 0 <= m < |s| ==> s[m] > x
    ensures forall j :: 0 <= j < |ChooseSeqs(s, k)| ==>
      ChooseSeqs(s, k)[j] != [] && ChooseSeqs(s, k)[j][0] > x
    decreases |s|
  {
    if |s| >= k {
      var t := s[1..];
      ChooseSeqsHeads(x, t, k);
      var a, b := ConsAll(s[0], ChooseSeqs(t, k - 1)), ChooseSeqs(t, k);
      forall j | 0 <= j < |a + b| ensures (a + b)[j] != [] && (a + b)[j][0] > x {
        if j < |a| {
          assert (a + b)[j] == [s[0]] + ChooseSeqs(t, k - 1)[j];
        } else {
          assert (a + b)[j] == b[j - |a|];
        }
      }
    }
  }

  lemma {:induction false} ChooseSeqsSorted(s: seq<int>, k: nat)
    requires Increasing(s)
    ensures LexSorted(ChooseSeqs(s, k))
    decreases |s|
  {
    if k > 0 && |s| >= k {
      var t := s[1..];
      ChooseSeqsSorted(t, k - 1);
      ChooseSeqsSorted(t, k);
      ChooseSeqsHeads(s[0], t, k);
      JoinSorted(s[0], ChooseSeqs(t, k - 1), ChooseSeqs(t, k));
    }
  }

  lemma IncreasingTail(s: seq<int>)
    requires Increasing(s) && s != []
    ensures Increasing(s[1..]) && Below(s[0], s[1..])
  {
  }

  /** The ascending form of each chosen set is the matching sequence choice. */
  lemma {:induction false} AscChoose(s: seq<int>, k: nat)
    requires Increasing(s)
    ensures Asc(Choose(s, k)) == ChooseSeqs(s, k)
    decreases |s|
  {
    if k == 0 {
      assert Asc([{}])[0] == Ascending({}) == [];
      assert Asc([{}]) == [[]];
    } else if |s| >= k {
      var t := s[1..];
      IncreasingTail(s);
      AscChoose(t, k - 1);
      AscChoose(t, k);
      var c1, c2 := Choose(t, k - 1), Choose(t, k);
      assert Asc(Extend({s[0]}, c1) + c2) == ConsAll(s[0], ChooseSeqs(t, k - 1)) + ChooseSeqs(t, k) by {
        ChooseAbove(s[0], t, k - 1);
        AscJoinKnown(s[0], c1, c2, ChooseSeqs(t, k - 1), ChooseSeqs(t, k));
      }
    }
  }

  /** `AscJoin` with the ascending forms of the parts already known. */
  lemma AscJoinKnown(x: int, c1: seq<set<int>>, c2: seq<set<int>>, d1: seq<seq<int>>, d2: seq<seq<int>>)
    requires forall i :: 0 <= i < |c1| ==> Above(x, c1[i])
    requires Asc(c1) == d1 && Asc(c2) == d2
    ensures Asc(Extend({x}, c1) + c2) == ConsAll(x, d1) + d2
  {
    AscJoin(x, c1, c2);
  }

  /** Without repetition, the subsets of an ascending `s` come in dictionary order. */
  lemma ChooseOrdered(s: seq<int>, k: nat)
    requires Increasing(s)
    ensures LexSorted(Asc(Choose(s, k)))
  {
    AscChoose(s, k);
    ChooseSeqsSorted(s, k);
  }

  lemma ExtendNothing(xs: seq<set<int>>)
    ensures Extend({}, xs) == xs
  {
    var l := Extend({}, xs);
    forall i | 0 <= i < |l| ensures l[i] == xs[i] {
      assert {} + xs[i] == xs[i];
    }
  }

  /**
   * Without repetition, the wheel of `k` of an ascending array lists each `k`-subset of it exactly
   * once, `Binomial(n, k)` sets in all, in dictionary order.
   */
  lemma WheelSubsets(arr: seq<int>, k: int)
    requires Increasing(arr) && 1 <= k <= |arr|
    ensures var w := Wheel(arr, false, k, 0, {});
      |w| == Binomial(|arr|, k) && Unique(w)
      && (forall c :: c in w ==> c <= Elems(arr) && |c| == k)
      && (forall c :: c <= Elems(arr) && |c| == k ==> c in w)
      && LexSorted(Asc(w))
  {
    IncreasingDistinct(arr);
    ChooseOrdered(arr, k);
    WheelChoose(arr, k, 0, {});
    assert arr[0..] == arr;
    ExtendNothing(Choose(arr, k));
    ChooseCount(arr, k);
    ChooseUnique(arr, k);
    ChooseMembers(arr, k);
    forall c | c <= Elems(arr) && |c| == k ensures c in Wheel(arr, false, k, 0, {}) {
      ChooseComplete(arr, k, c);
    }
  }

  /** Every set of `ws` is non-empty, within `bound` and of at most `size` members. */
  predicate Shaped(ws: seq<set<int>>, bound: set<int>, size: int) {
    forall c :: c in ws ==> c != {} && c <= bound && |c| <= size
  }

  lemma ShapedJoin(a: seq<set<int>>, b: seq<set<int>>, bound: set<int>, size: int)
    requires Shaped(a, bound, size) && Shaped(b, bound, size)
    ensures Shaped(a + b, bound, size)
  {
  }

  lemma ShapedWeaken(ws: seq<set<int>>, bound: set<int>, size: int, size': int)
    requires Shaped(ws, bound, size) && size <= size'
    ensures Shaped(ws, bound, size')
  {
  }

  /** Adding, or adding and taking out again, a member of `e` leaves the union with `e` as it was. */
  lemma SameBound(c: set<int>, a: int, e: set<int>)
    requires a in e
    ensures (c + {a}) + e == c + e && (c + {a} - {a}) + e == c + e
  {
  }

  /** The last column of the wheel: `chosen` plus one number of the array at a time. */
  lemma {:induction false} LastColumnShape(arr: seq<int>, rep: bool, j: int, chosen: set<int>)
    requires j >= 0
    ensures Shaped(Wheel(arr, rep, 1, j, chosen), chosen + Elems(arr), |chosen| + 1)
    decreases |arr| - j
  {
    if j < |arr| {
      var bound := chosen + Elems(arr);
      var a := arr[j];
      assert a in Elems(arr);
      var next := chosen + {a};
      var after := next - {a};
      var rest := Wheel(arr, rep, 1, j + 1, after);
      assert Wheel(arr, rep, 1, j, chosen) == [next] + rest;
      Subsets(after, chosen);
      LastColumnShape(arr, rep, j + 1, after);
      SameBound(chosen, a, Elems(arr));
      ShapedWeaken(rest, bound, |after| + 1, |chosen| + 1);
      assert |next| <= |chosen| + 1;
      assert Shaped([next], bound, |chosen| + 1);
      ShapedJoin([next], rest, bound, |chosen| + 1);
    }
  }

  /**
   * With or without repetition, every line of the wheel is a non-empty set of the array's numbers
   * with at most `|chosen| + left` members.
   */
  lemma {:induction false} WheelShape(arr: seq<int>, rep: bool, left: int, j: int, chosen: set<int>)
    requires left >= 1 && j >= 0
    ensures Shaped(Wheel(arr, rep, left, j, chosen), chosen + Elems(arr), |chosen| + left)
    decreases left, |arr| - j
  {
    if left == 1 {
      LastColumnShape(arr, rep, j, chosen);
    } else if j < |arr| - left + 1 {
      var a := arr[j];
      assert a in Elems(arr);
      var next := chosen + {a};
      WheelShape(arr, rep, left - 1, if rep then j else j + 1, next);
      WheelShape(arr, rep, left, j + 1, next - {a});
      ShapedStep(Wheel(arr, rep, left - 1, if rep then j else j + 1, next),
        Wheel(arr, rep, left, j + 1, next - {a}), chosen, a, Elems(arr), left);
    }
  }

  /** The two halves of one step of the wheel, put together. */
  lemma ShapedStep(w1: seq<set<int>>, w2: seq<set<int>>, chosen: set<int>, a: int, e: set<int>, left: int)
    requires a in e
    requires Shaped(w1, (chosen + {a}) + e, |chosen + {a}| + left - 1)
    requires Shaped(w2, (chosen + {a} - {a}) + e, |chosen + {a} - {a}| + left)
    ensures Shaped(w1 + w2, chosen + e, |chosen| + left)
  {
    var next := chosen + {a};
    var after := next - {a};
    Subsets(after, chosen);
    SameBound(chosen, a, e);
    assert |next| <= |chosen| + 1;
    ShapedWeaken(w1, chosen + e, |next| + left - 1, |chosen| + left);
    ShapedWeaken(w2, chosen + e, |after| + left, |chosen| + left);
    ShapedJoin(w1, w2, chosen + e, |chosen| + left);
  }

  /** The last two columns of [1, 2, 3], whatever is already chosen. */
  lemma WheelTail(rep: bool)
    ensures forall c :: Wheel([1, 2, 3], rep, 1, 3, c) == []
    ensures forall c :: Wheel([1, 2, 3], rep, 1, 2, c) == [c + {3}]
    ensures forall c :: Wheel([1, 2, 3], rep, 2, 2, c) == []
  {
    forall c ensures Wheel([1, 2, 3], rep, 1, 2, c) == [c + {3}] {
      assert Wheel([1, 2, 3], rep, 1, 3, c + {3} - {3}) == [];
    }
  }

  /** Picking two of [1, 2, 3] without repetition. */
  lemma WheelWithoutRepetition()
    ensures Wheel([1, 2, 3], false, 2, 0, {}) == [{1, 2}, {1, 3}, {2, 3}]
  {
    WheelTail(false);
    assert {1} + {2} == {1, 2} && {1} + {2} - {2} + {3} == {1, 3};
    assert Wheel([1, 2, 3], false, 1, 1, {1}) == [{1, 2}, {1, 3}];
    assert {} + {2} + {3} == {2, 3};
    assert Wheel([1, 2, 3], false, 2, 1, {}) == [{2, 3}];
    assert {} + {1} == {1} && {1} - {1} == {};
    assert Wheel([1, 2, 3], false, 2, 0, {})
      == Wheel([1, 2, 3], false, 1, 1, {1}) + Wheel([1, 2, 3], false, 2, 1, {});
  }

  /**
   * Picking two of [1, 2, 3] with repetition: the removal after each pick also removes the
   * repeated number, so the five lines are single numbers rather than the six multisets.
   */
  lemma WheelWithRepetition()
    ensures Wheel([1, 2, 3], true, 2, 0, {}) == [{1}, {2}, {3}, {2}, {3}]
  {
    WheelTail(true);
    assert {1} + {1} == {1} && {1} + {1} - {1} == {} && {} + {3} == {3} && {} + {2} == {2};
    assert Wheel([1, 2, 3], true, 1, 1, {}) == [{2}, {3}];
    assert Wheel([1, 2, 3], true, 1, 0, {1}) == [{1}, {2}, {3}];
    assert {2} + {2} == {2} && {2} + {2} - {2} == {};
    assert Wheel([1, 2, 3], true, 1, 1, {2}) == [{2}, {3}];
    assert Wheel([1, 2, 3], true, 2, 1, {}) == [{2}, {3}];
    assert {} + {1} == {1} && {1} - {1} == {};
    assert Wheel([1, 2, 3], true, 2, 0, {})
      == Wheel([1, 2, 3], true, 1, 0, {1}) + Wheel([1, 2, 3], true, 2, 1, {});
  }

  // ---------------------------------------------------------------------------------------------
  // The printed wheel.

  /** Each number's decimal followed by a space: one wheel line before any bonus ball. */
  function Spaced(xs: seq<int>): string {
    Terminated(Decimals(xs), [SPACE])
  }

  /** The line for one combination, whose `TreeSet` hands its members out smallest first. */
  ghost function Line(c: set<int>): string {
    Spaced(Ascending(c))
  }

  /** The lines for the combinations, in the order the wheel lists them. */
  ghost function Lines(combos: seq<set<int>>): (ls: seq<string>)
    ensures |ls| == |combos| && forall i :: 0 <= i < |combos| ==> ls[i] == Line(combos[i])
  {
    if combos == [] then [] else Lines(combos[..|combos| - 1]) + [Line(combos[|combos| - 1])]
  }

  /** `addBonusBallToList`'s result: every line with " | " and the bonus ball appended. */
  function Tagged(lines: seq<string>, bonusBall: int): seq<string> {
    seq(|lines|, i requires 0 <= i < |lines| => lines[i] + BONUS_SEPARATOR + IntToString(bonusBall))
  }

  /** The wheel repeated once per bonus ball, each copy tagged with that ball. */
  function Grouped(lines: seq<string>, bonus: seq<int>): seq<string> {
    if bonus == [] then []
    else Grouped(lines, bonus[..|bonus| - 1]) + Tagged(lines, bonus[|bonus| - 1])
  }

  /** The lines with the bonus balls looped on, or `None` when there is no bonus ball to index. */
  function BonusLines(lines: seq<string>, hasBonus: bool, bonus: seq<int>): Option<seq<string>> {
    if !hasBonus then Some(lines)
    else if bonus == [] then None
    else Some(Grouped(lines, bonus))
  }

  /** The wheel's lines as `getComboOutput` collects them for `k` in range. */
  ghost function OutputLines(numbers: seq<int>, rep: bool, hasBonus: bool, bonus: seq<int>, k: int)
    : Option<seq<string>>
    requires 1 <= k <= |numbers|
  {
    BonusLines(Lines(Wheel(numbers, rep, k, 0, {})), hasBonus, bonus)
  }

  /** What `toString` prints. */
  function Listing(numbers: seq<int>, hasBonus: bool, bonus: seq<int>): string {
    ListingHead(numbers) + if hasBonus then ListingTail(bonus) else ""
  }

  /**
   * What `getComboOutput(k)` prints: each line ended by CR LF, or the listing when `k` is out of
   * range; `None` is the uncaught index error of an empty bonus-ball array.
   */
  ghost function ComboText(numbers: seq<int>, rep: bool, hasBonus: bool, bonus: seq<int>, k: int)
    : Option<string>
  {
    if k > |numbers| || k <= 0 then Some(Listing(numbers, hasBonus, bonus))
    else match OutputLines(numbers, rep, hasBonus, bonus, k)
      case None => None
      case Some(ls) => Some(Terminated(ls, MS_NEWLINE))
  }

  /** A scanner reading a wheel line sees the decimals of its numbers, smallest first. */
  lemma {:induction false} SpacedTokens(xs: seq<int>)
    ensures NumberUtils.Tokens(Spaced(xs)) == Decimals(xs)
  {
    if xs != [] {
      var w := IntToString(xs[0]);
      var ds := Decimals(xs);
      assert ds[1..] == Decimals(xs[1..]);
      assert Spaced(xs) == w + [SPACE] + Spaced(xs[1..]);
      assert forall i :: 0 <= i < |w| ==> !NumberUtils.IsWhitespace(w[i]);
      NumberUtils.TokensSplit(w, SPACE, Spaced(xs[1..]));
      NumberUtils.TokensOfWord(w);
      SpacedTokens(xs[1..]);
    }
  }

  lemma LineTokens(c: set<int>)
    ensures NumberUtils.Tokens(Line(c)) == Decimals(Ascending(c))
  {
    SpacedTokens(Ascending(c));
  }

  /** Where the `g`-th block of `l` lines starts: `l * g`, counted block by block. */
  function Offset(l: int, g: nat): int {
    if g == 0 then 0 else Offset(l, g - 1) + l
  }

  lemma {:induction false} OffsetIsProduct(l: int, g: nat)
    ensures Offset(l, g) == l * g
  {
    if g > 0 {
      OffsetIsProduct(l, g - 1);
    }
  }

  lemma {:induction false} OffsetMono(l: nat, g: nat, m: nat)
    requires g <= m
    ensures 0 <= Offset(l, g) <= Offset(l, m)
  {
    if g < m {
      OffsetMono(l, g, m - 1);
    } else if g > 0 {
      OffsetMono(l, 0, g - 1);
    }
  }

  lemma {:induction false} GroupedSize(lines: seq<string>, bonus: seq<int>)
    ensures |Grouped(lines, bonus)| == Offset(|lines|, |bonus|)
  {
    if bonus != [] {
      GroupedSize(lines, bonus[..|bonus| - 1]);
    }
  }

  /** One copy of the wheel per bonus ball. */
  lemma GroupedLength(lines: seq<string>, bonus: seq<int>)
    ensures |Grouped(lines, bonus)| == |lines| * |bonus|
  {
    GroupedSize(lines, bonus);
    OffsetIsProduct(|lines|, |bonus|);
  }

  /**
   * The `g`-th copy of the wheel carries the `g`-th bonus ball: line `i` of it is the wheel's
   * line `i` with that ball appended.
   */
  lemma GroupedLine(lines: seq<string>, bonus: seq<int>, g: int, i: int)
    requires 0 <= g < |bonus| && 0 <= i < |lines|
    ensures |lines| * g + i < |Grouped(lines, bonus)|
    ensures Grouped(lines, bonus)[|lines| * g + i] == lines[i] + BONUS_SEPARATOR + IntToString(bonus[g])
  {
    var l := |lines|;
    GroupedBlock(lines, bonus, g);
    OffsetIsProduct(l, g);
    var t := Tagged(lines, bonus[g]);
    SliceIndex(Grouped(lines, bonus), Offset(l, g), l, i, l * g + i);
    assert Grouped(lines, bonus)[l * g + i] == t[i];
  }

  lemma SliceIndex<T>(s: seq<T>, o: int, l: int, i: int, k: int)
    requires 0 <= o && o + l <= |s| && 0 <= i < l && k == o + i
    ensures s[k] == s[o..o + l][i]
  {
  }

  /** The `g`-th block of `l` lines is `lines` tagged with the `g`-th bonus ball. */
  lemma {:induction false} GroupedBlock(lines: seq<string>, bonus: seq<int>, g: nat)
    requires g < |bonus|
    ensures 0 <= Offset(|lines|, g) && Offset(|lines|, g) + |lines| <= |Grouped(lines, bonus)|
    ensures Grouped(lines, bonus)[Offset(|lines|, g)..Offset(|lines|, g) + |lines|] == Tagged(lines, bonus[g])
  {
    var n, l := |bonus|, |lines|;
    var init := bonus[..n - 1];
    var x := Tagged(lines, bonus[g]);
    if g < n - 1 {
      GroupedBlock(lines, init, g);
      assert init[g] == bonus[g];
      assert Tagged(lines, init[g]) == x;
    }
    GroupedSize(lines, init);
    var before, tagged := Grouped(lines, init), Tagged(lines, bonus[n - 1]);
    assert Grouped(lines, bonus) == before + tagged;
    BlockAt(Grouped(lines, bonus), before, tagged, l, g, n, x);
  }

  /**
   * Block `g` of `before + tagged`, where `before` holds `n - 1` blocks of `l` lines: block `g` of
   * `before` for an earlier block, `tagged` for the last.
   */
  lemma BlockAt<T>(whole: seq<T>, before: seq<T>, tagged: seq<T>, l: nat, g: nat, n: nat, x: seq<T>)
    requires g < n
    requires whole == before + tagged && |before| == Offset(l, n - 1) && |tagged| == l
    requires g < n - 1 ==>
      0 <= Offset(l, g) && Offset(l, g) + l <= |before| && before[Offset(l, g)..Offset(l, g) + l] == x
    requires g == n - 1 ==> tagged == x
    ensures 0 <= Offset(l, g) && Offset(l, g) + l <= |whole| && whole[Offset(l, g)..Offset(l, g) + l] == x
  {
    OffsetMono(l, g, g);
    var o := Offset(l, g);
    var w := whole[o..o + l];
    if g < n - 1 {
      var b := before[o..o + l];
      forall j | 0 <= j < l
        ensures w[j] == b[j]
      {
        assert whole[o + j] == before[o + j];
      }
      assert w == b;
    } else {
      forall j | 0 <= j < l
        ensures w[j] == tagged[j]
      {
        assert whole[o + j] == tagged[j];
      }
      assert w == tagged;
    }
  }

  /** With `k` out of range the wheel falls back on the listing. */
  lemma ComboTextFallback(numbers: seq<int>, rep: bool, hasBonus: bool, bonus: seq<int>, k: int)
    requires k > |numbers| || k <= 0
    ensures ComboText(numbers, rep, hasBonus, bonus, k) == Some(Listing(numbers, hasBonus, bonus))
  {
  }

  /**
   * With `k` in range the text is the wheel's lines, each ended by CR LF: one per combination, or
   * with bonus balls one copy of the wheel per ball (see `GroupedLine`); only an empty bonus-ball
   * array in a bonus-ball game fails.
   */
  lemma ComboTextLines(numbers: seq<int>, rep: bool, hasBonus: bool, bonus: seq<int>, k: int)
    requires 1 <= k <= |numbers|
    ensures ComboText(numbers, rep, hasBonus, bonus, k).None? <==> hasBonus && bonus == []
    ensures !hasBonus ==>
      ComboText(numbers, rep, hasBonus, bonus, k)
        == Some(Terminated(Lines(Wheel(numbers, rep, k, 0, {})), MS_NEWLINE))
    ensures hasBonus && bonus != [] ==>
      ComboText(numbers, rep, hasBonus, bonus, k)
        == Some(Terminated(Grouped(Lines(Wheel(numbers, rep, k, 0, {})), bonus), MS_NEWLINE))
  {
  }

  /** A character that is no digit, sign, separator or letter of "none" is never in the layout. */
  lemma {:induction false} PrefixAvoids(ds: seq<string>, k: nat, c: char)
    requires k <= |ds| && forall i :: 0 <= i < |ds| ==> c !in ds[i]
    requires c != ',' && c != ' ' && c != ArrayUtils.NEWLINE
    ensures c !in ArrayUtils.Prefix(ds, k)
  {
    if k > 0 {
      PrefixAvoids(ds, k - 1, c);
      assert c !in ds[k - 1];
    }
  }

  lemma LayoutAvoids(ds: seq<string>, c: char)
    requires forall i :: 0 <= i < |ds| ==> c !in ds[i]
    requires c != ',' && c != ' ' && c != ArrayUtils.NEWLINE && c != 'n' && c != 'o' && c != 'e'
    ensures c !in ArrayUtils.Layout(ds)
  {
    if |ds| == 0 {
      assert ArrayUtils.Layout(ds) == "none";
    } else {
      PrefixAvoids(ds, |ds| - 1, c);
      var p, last := ArrayUtils.Prefix(ds, |ds| - 1), ds[|ds| - 1];
      assert ArrayUtils.Layout(ds) == p + last;
      assert c !in last;
    }
  }

  lemma SixPerLineAvoids(xs: seq<int>, c: char)
    requires !IsDigit(c) && c != '-' && c != ',' && c != ' ' && c != ArrayUtils.NEWLINE
    requires c != 'n' && c != 'o' && c != 'e'
    ensures c !in ArrayUtils.SixPerLine(xs)
  {
    var ds := Decimals(xs);
    forall i | 0 <= i < |ds| ensures c !in ds[i] {
      assert DecimalChars(ds[i]);
    }
    LayoutAvoids(ds, c);
  }

  /** The listing names the bonus balls exactly when the wheel has them. */
  lemma ListingNamesBonusBalls(numbers: seq<int>, hasBonus: bool, bonus: seq<int>)
    ensures 'B' in Listing(numbers, hasBonus, bonus) <==> hasBonus
  {
    var head := ListingHead(numbers);
    HeadAvoidsB(numbers);
    if hasBonus {
      var tail := ListingTail(bonus);
      assert Listing(numbers, hasBonus, bonus) == head + tail;
      TailNamesB(bonus);
      assert (head + tail)[|head| + 4] == 'B';
    } else {
      assert Listing(numbers, hasBonus, bonus) == head;
    }
  }

  /** The numbers part of the listing. */
  function ListingHead(numbers: seq<int>): string {
    "Numbers:    " + MS_NEWLINE + ArrayUtils.SixPerLine(numbers)
  }

  /** The bonus-ball part of the listing. */
  function ListingTail(bonus: seq<int>): string {
    MS_NEWLINE + MS_NEWLINE + "BonusBalls: " + MS_NEWLINE + ArrayUtils.SixPerLine(bonus)
  }

  lemma HeadAvoidsB(numbers: seq<int>)
    ensures 'B' !in ListingHead(numbers)
  {
    SixPerLineAvoids(numbers, 'B');
    var caption := "Numbers:    " + MS_NEWLINE;
    assert forall i :: 0 <= i < |caption| ==> caption[i] != 'B';
  }

  lemma TailNamesB(bonus: seq<int>)
    ensures |ListingTail(bonus)| > 4 && ListingTail(bonus)[4] == 'B'
  {
  }

  /** `addBonusBallToList`: the loop that rewrites every line of the list with the ball appended. */
  method AddBonusBallToList(list: seq<string>, bonusBall: int) returns (r: seq<string>)
    ensures r == Tagged(list, bonusBall)
  {
    r := list;
    for i := 0 to |r|
      invariant |r| == |list|
      invariant forall j :: 0 <= j < i ==> r[j] == list[j] + BONUS_SEPARATOR + IntToString(bonusBall)
      invariant forall j :: i <= j < |r| ==> r[j] == list[j]
    {
      var element := r[i];
      element := element + BONUS_SEPARATOR + IntToString(bonusBall);
      r := r[i := element];
    }
  }

  /** The inner loop of `getComboOutput`: one combination's members, each followed by a space. */
  method LineOf(c: set<int>) returns (line: string)
    ensures line == Line(c)
  {
    var xs := AscendingOf(c);
    line := SpacedOf(xs);
  }

  method SpacedOf(xs: seq<int>) returns (line: string)
    ensures line == Spaced(xs)
  {
    line := "";
    ghost var ds := Decimals(xs);
    for j := 0 to |xs|
      invariant line == Terminated(ds[..j], [SPACE])
    {
      TerminatedStep(ds, j, [SPACE]);
      line := line + IntToString(xs[j]) + [SPACE];
    }
    assert ds[..|xs|] == ds;
  }

  /** The outer loop of `getComboOutput`: one line per combination. */
  method LinesOf(combos: seq<set<int>>) returns (lines: seq<string>)
    ensures lines == Lines(combos)
  {
    lines := [];
    for i := 0 to |combos|
      invariant lines == Lines(combos[..i])
    {
      var line := LineOf(combos[i]);
      assert combos[..i + 1][..i] == combos[..i];
      lines := lines + [line];
    }
    assert combos[..|combos|] == combos;
  }

  /** The loop that ends every line with CR LF. */
  method Terminate(lines: seq<string>) returns (out: string)
    ensures out == Terminated(lines, MS_NEWLINE)
  {
    out := "";
    for i := 0 to |lines|
      invariant out == Terminated(lines[..i], MS_NEWLINE)
    {
      TerminatedStep(lines, i, MS_NEWLINE);
      out := out + lines[i] + MS_NEWLINE;
    }
    assert lines[..|lines|] == lines;
  }

  /** `Combinations`: the numbers to wheel, sorted, and optionally the bonus balls to loop on. */
  class Combinations {
    const numbers: array<int>
    var bonusBalls: array?<int>
    var repetition: bool
    var hasBonus: bool

    ghost predicate Valid()
      reads this, numbers, bonusBalls
    {
      Increasing(numbers[..]) && (hasBonus ==> bonusBalls != null && Increasing(bonusBalls[..]))
    }

    /** The bonus balls as a sequence, empty while there is no array. */
    function Bonus(): seq<int>
      reads this, bonusBalls
    {
      if bonusBalls == null then [] else bonusBalls[..]
    }

    /** `Combinations(numbers)`: no bonus balls, no repetition. */
    constructor (theNumbers: set<int>)
      ensures Valid() && fresh(numbers)
      ensures numbers[..] == Ascending(theNumbers)
      ensures bonusBalls == null && !hasBonus && !repetition
    {
      var a := SortedArray(theNumbers);
      numbers := a;
      bonusBalls := null;
      repetition := false;
      hasBonus := false;
    }

    /** `Combinations(numbers, bonusBalls)`: the bonus balls are sorted as well. */
    constructor WithBonusBalls(theNumbers: set<int>, theBonusBalls: set<int>)
      ensures Valid() && fresh(numbers) && fresh(bonusBalls)
      ensures numbers[..] == Ascending(theNumbers)
      ensures bonusBalls != null && bonusBalls[..] == Ascending(theBonusBalls)
      ensures hasBonus && !repetition
    {
      var a := SortedArray(theNumbers);
      var b := SortedArray(theBonusBalls);
      numbers := a;
      bonusBalls := b;
      repetition := false;
      hasBonus := true;
    }

    /** `setRepitition`. */
    method SetRepetition(allowRep: bool)
      requires Valid()
      modifies this
      ensures Valid() && repetition == allowRep
      ensures hasBonus == old(hasBonus) && bonusBalls == old(bonusBalls)
    {
      repetition := allowRep;
    }

    /** The recursive `getCombos(howManyLeftToAdd, lastUsedIndex, result)`. */
    method CombosFrom(left: int, lastUsed: int, chosen: set<int>) returns (combos: seq<set<int>>)
      requires left >= 1 && 0 <= lastUsed <= numbers.Length
      ensures combos == Wheel(numbers[..], repetition, left, lastUsed, chosen)
      decreases left
    {
      ghost var arr := numbers[..];
      combos := [];
      var result := chosen;
      if left == 1 {
        for j := lastUsed to numbers.Length
          invariant combos + Wheel(arr, repetition, 1, j, result) == Wheel(arr, repetition, 1, lastUsed, chosen)
        {
          result := result + {numbers[j]};
          Regroup(combos, result, Wheel(arr, repetition, 1, j + 1, result - {numbers[j]}));
          combos := combos + [result];
          result := result - {numbers[j]};
        }
        assert combos + [] == combos;
      } else {
        var j := lastUsed;
        while j < numbers.Length - left + 1
          invariant lastUsed <= j
          invariant combos + Wheel(arr, repetition, left, j, result) == Wheel(arr, repetition, left, lastUsed, chosen)
          decreases numbers.Length - j
        {
          result := result + {numbers[j]};
          var sub := CombosFrom(left - 1, if repetition then j else j + 1, result);
          Assoc(combos, sub, Wheel(arr, repetition, left, j + 1, result - {numbers[j]}));
          combos := combos + sub;
          result := result - {numbers[j]};
          j := j + 1;
        }
        assert combos + [] == combos;
      }
    }

    /**
     * `getCombos(k)`: the wheel of `k` of the numbers; `None` is the `IllegalArgumentException`
     * for `k` out of range. Without repetition it lists every `k`-subset exactly once.
     */
    method GetCombos(k: int) returns (r: Option<seq<set<int>>>)
      requires Valid()
      ensures r.Some? <==> 1 <= k <= numbers.Length
      ensures r.Some? ==> r.value == Wheel(numbers[..], repetition, k, 0, {})
      ensures r.Some? && !repetition ==>
        |r.value| == Binomial(numbers.Length, k) && Unique(r.value)
        && (forall c :: c in r.value ==> c <= Elems(numbers[..]) && |c| == k)
        && (forall c :: c <= Elems(numbers[..]) && |c| == k ==> c in r.value)
        && LexSorted(Asc(r.value))
      ensures r.Some? ==> Shaped(r.value, Elems(numbers[..]), k)
    {
      if k > numbers.Length || k <= 0 {
        return None;
      }
      var combos := CombosFrom(k, 0, {});
      WheelShape(numbers[..], repetition, k, 0, {});
      assert {} + Elems(numbers[..]) == Elems(numbers[..]);
      if !repetition {
        WheelSubsets(numbers[..], k);
      }
      r := Some(combos);
    }

    /** `toString`: the numbers six to a line, then the bonus balls when there are any. */
    method ToString() returns (s: string)
      requires Valid()
      ensures s == Listing(numbers[..], hasBonus, Bonus())
    {
      var out := "Numbers:    " + MS_NEWLINE;
      var t := ArrayUtils.SixNumbersPerLine(numbers);
      out := out + t;
      if hasBonus {
        out := out + MS_NEWLINE + MS_NEWLINE + "BonusBalls: " + MS_NEWLINE;
        var u := ArrayUtils.SixNumbersPerLine(bonusBalls);
        out := out + u;
      }
      s := out;
    }

    /** The part of `getComboOutput` that loops the bonus balls onto the wheel's lines. */
    method AddBonusBalls(lines: seq<string>) returns (r: Option<seq<string>>)
      requires Valid()
      ensures r == BonusLines(lines, hasBonus, Bonus())
    {
      var result := lines;
      if hasBonus {
        if bonusBalls.Length == 1 {
          result := AddBonusBallToList(result, bonusBalls[0]);
          assert bonusBalls[..][..0] == [];
          assert Grouped(lines, bonusBalls[..]) == [] + result == result;
        } else {
          var originalList := result;
          if bonusBalls.Length == 0 {
            return None;
          }
          result := AddBonusBallToList(result, bonusBalls[0]);
          assert bonusBalls[..1][..0] == [];
          assert Grouped(originalList, bonusBalls[..1]) == [] + result == result;
          for i := 1 to bonusBalls.Length
            invariant result == Grouped(originalList, bonusBalls[..i])
          {
            var listWithThisBall := AddBonusBallToList(originalList, bonusBalls[i]);
            assert bonusBalls[..i + 1][..i] == bonusBalls[..i];
            result := result + listWithThisBall;
          }
          assert bonusBalls[..bonusBalls.Length] == bonusBalls[..];
        }
      }
      r := Some(result);
    }

    /** `getComboOutput(k)`. */
    method GetComboOutput(k: int) returns (r: Option<string>)
      requires Valid()
      ensures r == ComboText(numbers[..], repetition, hasBonus, Bonus(), k)
    {
      var output := GetCombos(k);
      if output.None? {
        var t := ToString();
        return Some(t);
      }
      var lines := LinesOf(output.value);
      var result := AddBonusBalls(lines);
      if result.None? {
        return None;
      }
      var out := Terminate(result.value);
      r := Some(out);
    }

    /** `getOutput(wheelFlag, k)`: the wheel, or the plain listing. */
    method GetOutput(wheelFlag: bool, k: int) returns (r: Option<string>)
      requires Valid()
      ensures r == if wheelFlag then ComboText(numbers[..], repetition, hasBonus, Bonus(), k)
                   else Some(Listing(numbers[..], hasBonus, Bonus()))
    {
      if wheelFlag {
        r := GetComboOutput(k);
      } else {
        var t := ToString();
        r := Some(t);
      }
    }
  }
}
