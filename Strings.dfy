/** The `java.lang.String` searches the core relies on, stated over `seq<char>`. */
module Strings {

  /** `d` occurs in `s` starting at position `i`. */
  predicate OccursAt(s: string, d: string, i: int) {
    0 <= i && i + |d| <= |s| && s[i..i + |d|] == d
  }

  /** `s.indexOf(d, k)`: the first position at or after `k` where `d` occurs, or -1. */
  function IndexOfFrom(s: string, d: string, k: nat): (r: int)
    requires k <= |s|
    ensures r == -1 || (k <= r && OccursAt(s, d, r))
    ensures forall j :: k <= j && (r == -1 || j < r) ==> !OccursAt(s, d, j)
    decreases |s| - k
  {
    if k + |d| > |s| then -1
    else if s[k..k + |d|] == d then k
    else IndexOfFrom(s, d, k + 1)
  }

  /** `s.indexOf(d)` for a string `d`. */
  function IndexOf(s: string, d: string): (r: int)
    ensures r == -1 || OccursAt(s, d, r)
    ensures forall j :: 0 <= j && (r == -1 || j < r) ==> !OccursAt(s, d, j)
  {
    IndexOfFrom(s, d, 0)
  }

  /** `s.indexOf(c, k)` for a character `c`. */
  function CharIndexFrom(s: string, c: char, k: nat): (r: int)
    requires k <= |s|
    ensures r == -1 || (k <= r < |s| && s[r] == c)
    ensures forall j :: k <= j < |s| && (r == -1 || j < r) ==> s[j] != c
    decreases |s| - k
  {
    if k == |s| then -1
    else if s[k] == c then k
    else CharIndexFrom(s, c, k + 1)
  }

  /** `s.indexOf(c)` for a character `c`. */
  function CharIndex(s: string, c: char): (r: int)
    ensures r == -1 <==> c !in s
    ensures r >= 0 ==> r < |s| && s[r] == c && c !in s[..r]
  {
    CharIndexFrom(s, c, 0)
  }

  /** `s.lastIndexOf(c)`. */
  function LastCharIndex(s: string, c: char): (r: int)
    ensures -1 <= r < |s|
    ensures r == -1 <==> c !in s
    ensures r >= 0 ==> r < |s| && s[r] == c && c !in s[r + 1..]
  {
    if s == [] then -1
    else if s[|s| - 1] == c then |s| - 1
    else LastCharIndex(s[..|s| - 1], c)
  }

  /** `s` with every `c` taken out, the rest in order. */
  function RemoveAll(s: string, c: char): string {
    if s == [] then [] else RemoveAll(s[..|s| - 1], c) + (if s[|s| - 1] == c then [] else [s[|s| - 1]])
  }

  function CountChar(s: string, c: char): nat {
    if s == [] then 0 else CountChar(s[..|s| - 1], c) + (if s[|s| - 1] == c then 1 else 0)
  }

  lemma {:induction false} RemoveAllAppend(s: string, t: string, c: char)
    ensures RemoveAll(s + t, c) == RemoveAll(s, c) + RemoveAll(t, c)
  {
    if t == [] {
      assert s + t == s;
    } else {
      assert (s + t)[..|s + t| - 1] == s + t[..|t| - 1];
      RemoveAllAppend(s, t[..|t| - 1], c);
    }
  }

  lemma {:induction false} RemoveAllAbsent(s: string, c: char)
    requires c !in s
    ensures RemoveAll(s, c) == s
  {
    if s != [] {
      var init := s[..|s| - 1];
      assert c !in init by {
        forall k | 0 <= k < |init| ensures init[k] != c {
          assert init[k] == s[k];
        }
      }
      RemoveAllAbsent(init, c);
      assert s[|s| - 1] != c;
      assert s == init + [s[|s| - 1]];
    }
  }

  /** Deleting one occurrence of `c` does not change what remains once all are deleted. */
  lemma RemoveAllDeleteOne(s: string, i: nat, c: char)
    requires i < |s| && s[i] == c
    ensures RemoveAll(s[..i] + s[i + 1..], c) == RemoveAll(s, c)
  {
    var pre, post := s[..i], s[i + 1..];
    assert s == pre + ([c] + post);
    assert RemoveAll([c], c) == [] by {
      assert [c][..0] == [];
    }
    calc {
      RemoveAll(s, c);
      { RemoveAllAppend(pre, [c] + post, c); }
      RemoveAll(pre, c) + RemoveAll([c] + post, c);
      { RemoveAllAppend([c], post, c); }
      RemoveAll(pre, c) + RemoveAll(post, c);
      { RemoveAllAppend(pre, post, c); }
      RemoveAll(pre + post, c);
    }
  }

  lemma {:induction false} CountCharAppend(s: string, t: string, c: char)
    ensures CountChar(s + t, c) == CountChar(s, c) + CountChar(t, c)
  {
    if t == [] {
      assert s + t == s;
    } else {
      assert (s + t)[..|s + t| - 1] == s + t[..|t| - 1];
      CountCharAppend(s, t[..|t| - 1], c);
    }
  }

  lemma {:induction false} CountCharAbsent(s: string, c: char)
    requires c !in s
    ensures CountChar(s, c) == 0
  {
    if s != [] {
      var init := s[..|s| - 1];
      assert c !in init by {
        forall k | 0 <= k < |init| ensures init[k] != c {
          assert init[k] == s[k];
        }
      }
      CountCharAbsent(init, c);
    }
  }

  lemma CountCharSingle(c: char, d: char)
    ensures CountChar([c], d) == if c == d then 1 else 0
  {
    assert [c][..0] == [];
  }

  /** `ps` written one after the other, with `d` between neighbours. */
  function Join(ps: seq<string>, d: string): string {
    if |ps| == 0 then ""
    else if |ps| == 1 then ps[0]
    else ps[0] + d + Join(ps[1..], d)
  }

  lemma {:induction false} JoinSnoc(ps: seq<string>, p: string, d: string)
    requires |ps| > 0
    ensures Join(ps + [p], d) == Join(ps, d) + d + p
  {
    if |ps| > 1 {
      assert (ps + [p])[1..] == ps[1..] + [p];
      JoinSnoc(ps[1..], p, d);
    }
  }

  /** Searching for a one-character string finds the character's first occurrence. */
  lemma IndexOfChar(s: string, c: char)
    ensures IndexOf(s, [c]) == CharIndex(s, c)
  {
    var r, q := IndexOf(s, [c]), CharIndex(s, c);
    forall j | 0 <= j < |s| ensures OccursAt(s, [c], j) <==> s[j] == c {
      assert s[j..j + 1] == [s[j]];
    }
    if q >= 0 {
      assert OccursAt(s, [c], q);
      assert forall j :: 0 <= j < q ==> s[j] == s[..q][j];
    }
  }

  /** The first `c` of `a + [c] + b` is the one after `a` when `a` has none. */
  lemma IndexOfAfter(a: string, c: char, b: string)
    requires c !in a
    ensures IndexOf(a + [c] + b, [c]) == |a|
  {
    var s := a + [c] + b;
    IndexOfChar(s, c);
    assert s[|a|] == c;
    assert s[..|a|] == a;
  }
  /** The first `c` in `a + [c] + b` is the one after `a` when `a` has none. */
  lemma CharIndexAfter(a: string, c: char, b: string)
    requires c !in a
    ensures CharIndex(a + [c] + b, c) == |a|
  {
    IndexOfAfter(a, c, b);
    IndexOfChar(a + [c] + b, c);
  }

  /** The last `c` in `a + [c] + b` is the one after `a` when `b` has none. */
  lemma LastCharIndexBefore(a: string, c: char, b: string)
    requires c !in b
    ensures LastCharIndex(a + [c] + b, c) == |a|
  {
    var s := a + [c] + b;
    var r := LastCharIndex(s, c);
    assert s[|a|] == c;
    assert s[|a| + 1..] == b;
  }

  /** Every one of `ps` followed by `d`. */
  function Terminated(ps: seq<string>, d: string): string {
    if ps == [] then "" else ps[0] + d + Terminated(ps[1..], d)
  }

  lemma {:induction false} TerminatedSnoc(ps: seq<string>, p: string, d: string)
    ensures Terminated(ps + [p], d) == Terminated(ps, d) + p + d
  {
    if ps != [] {
      assert (ps + [p])[1..] == ps[1..] + [p];
      TerminatedSnoc(ps[1..], p, d);
    }
  }

  /** One more element of `ps` terminated: the step of a loop that writes them in order. */
  lemma TerminatedStep(ps: seq<string>, i: int, d: string)
    requires 0 <= i < |ps|
    ensures Terminated(ps[..i + 1], d) == Terminated(ps[..i], d) + ps[i] + d
  {
    assert ps[..i + 1] == ps[..i] + [ps[i]];
    TerminatedSnoc(ps[..i], ps[i], d);
  }

  /** Joining with a separator is terminating all but the last. */
  lemma {:induction false} JoinTerminated(ps: seq<string>, p: string, d: string)
    ensures Join(ps + [p], d) == Terminated(ps, d) + p
  {
    if ps == [] {
      assert [] + [p] == [p];
    } else {
      assert (ps + [p])[1..] == ps[1..] + [p];
      JoinTerminated(ps[1..], p, d);
    }
  }

  lemma SplitLast<T>(s: seq<T>)
    requires |s| > 0
    ensures s == s[..|s| - 1] + [s[|s| - 1]]
  {
  }

  /** Concatenation regrouped. */
  lemma Assoc<T>(a: seq<T>, b: seq<T>, c: seq<T>)
    ensures a + (b + c) == (a + b) + c
  {
  }
}
