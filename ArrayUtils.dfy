/** `util.ArrayUtils`: the listing of a wheel's numbers and a membership test on `int[]`. */
module ArrayUtils {
  import opened JavaNumbers
  import opened Strings

  const NEWLINE := '\n'
  const NUMBERS_PER_LINE := 6

  /** The `k`-th entry (from 1): the decimal, ", ", and a newline if `k` is a multiple of six. */
  function Entry(ds: seq<string>, k: nat): string
    requires 1 <= k <= |ds|
  {
    ds[k - 1] + ", " + (if k % NUMBERS_PER_LINE == 0 then [NEWLINE] else "")
  }

  /** The text for the first `k` decimals. */
  function Prefix(ds: seq<string>, k: nat): string
    requires k <= |ds|
  {
    if k == 0 then "" else Prefix(ds, k - 1) + Entry(ds, k)
  }

  /** The layout of a list of decimals: "none" for none, else six to a line. */
  function Layout(ds: seq<string>): string {
    if |ds| == 0 then "none" else Prefix(ds, |ds| - 1) + ds[|ds| - 1]
  }

  /** What `sixNumbersPerLine` prints for the numbers `xs`. */
  function SixPerLine(xs: seq<int>): string {
    Layout(Decimals(xs))
  }

  /** `sixNumbersPerLine`. */
  method SixNumbersPerLine(theArr: array<int>) returns (r: string)
    ensures r == SixPerLine(theArr[..])
  {
    ghost var ds := Decimals(theArr[..]);
    var builder := "";
    if theArr.Length > 0 {
      var i := 0;
      while i < theArr.Length - 1
        invariant 0 <= i <= theArr.Length - 1
        invariant builder == Prefix(ds, i)
      {
        ghost var before := builder;
        assert ds[i] == IntToString(theArr[i]);
        builder := builder + IntToString(theArr[i]) + ", ";
        i := i + 1;
        EntryStep(before, ds, i);
        if i % NUMBERS_PER_LINE == 0 {
          builder := builder + [NEWLINE];
        }
      }
      assert ds[i] == IntToString(theArr[i]);
      builder := builder + IntToString(theArr[i]);
    } else {
      builder := builder + "none";
    }
    r := builder;
  }

  /** The `k`-th entry appended to `before`, spelled the way the loop builds it. */
  lemma EntryStep(before: string, ds: seq<string>, k: nat)
    requires 1 <= k <= |ds|
    ensures Prefix(ds, k) == Prefix(ds, k - 1) + Entry(ds, k)
    ensures k % NUMBERS_PER_LINE == 0 ==> before + Entry(ds, k) == before + ds[k - 1] + ", " + [NEWLINE]
    ensures k % NUMBERS_PER_LINE != 0 ==> before + Entry(ds, k) == before + ds[k - 1] + ", "
  {
  }

  /** No decimal holds a line break. */
  predicate Unbroken(ds: seq<string>) {
    forall i :: 0 <= i < |ds| ==> NEWLINE !in ds[i]
  }

  lemma DecimalsUnbroken(xs: seq<int>)
    ensures Unbroken(Decimals(xs))
  {
    forall i | 0 <= i < |xs| ensures NEWLINE !in Decimals(xs)[i] {
      DecimalHasNoSpace(xs[i]);
    }
  }

  lemma LastIsDigit(n: int)
    ensures IsDigit(IntToString(n)[|IntToString(n)| - 1])
  {
    if n < 0 {
      var t := NatToString(-n);
      assert IntToString(n)[|IntToString(n)| - 1] == t[|t| - 1];
    }
  }

  /** The text is "none" exactly when there are no numbers. */
  lemma NoneIffEmpty(xs: seq<int>)
    ensures SixPerLine(xs) == "none" <==> xs == []
  {
    if xs != [] {
      var ds := Decimals(xs);
      var last := ds[|ds| - 1];
      var s := Layout(ds);
      LastIsDigit(xs[|xs| - 1]);
      assert s == Prefix(ds, |ds| - 1) + last;
      assert s[|s| - 1] == last[|last| - 1];
    }
  }

  lemma EntryFacts(ds: seq<string>, k: nat)
    requires 1 <= k <= |ds| && NEWLINE !in ds[k - 1]
    ensures RemoveAll(Entry(ds, k), NEWLINE) == ds[k - 1] + ", "
    ensures CountChar(Entry(ds, k), NEWLINE) == if k % NUMBERS_PER_LINE == 0 then 1 else 0
  {
    var d := ds[k - 1];
    var nl: string := if k % NUMBERS_PER_LINE == 0 then [NEWLINE] else "";
    assert NEWLINE !in d + ", ";
    RemoveAllAbsent(d + ", ", NEWLINE);
    CountCharAbsent(d + ", ", NEWLINE);
    RemoveAllAppend(d + ", ", nl, NEWLINE);
    CountCharAppend(d + ", ", nl, NEWLINE);
    if nl != "" {
      assert nl[..0] == [];
      CountCharSingle(NEWLINE, NEWLINE);
    }
  }

  /** With the line breaks taken out, the first `k` entries are the decimals, each ending in ", ". */
  lemma {:induction false} FlatPrefix(ds: seq<string>, k: nat)
    requires k <= |ds| && Unbroken(ds)
    ensures RemoveAll(Prefix(ds, k), NEWLINE) == Terminated(ds[..k], ", ")
  {
    if k > 0 {
      var pre, entry := Prefix(ds, k - 1), Entry(ds, k);
      var init, d := ds[..k - 1], ds[k - 1];
      SplitLast(ds[..k]);
      assert ds[..k][..k - 1] == init;
      calc {
        RemoveAll(pre + entry, NEWLINE);
        { RemoveAllAppend(pre, entry, NEWLINE); }
        RemoveAll(pre, NEWLINE) + RemoveAll(entry, NEWLINE);
        { FlatPrefix(ds, k - 1); EntryFacts(ds, k); }
        Terminated(init, ", ") + d + ", ";
        { TerminatedSnoc(init, d, ", "); }
        Terminated(init + [d], ", ");
      }
    }
  }

  lemma FlatLayout(ds: seq<string>)
    requires |ds| > 0 && Unbroken(ds)
    ensures RemoveAll(Layout(ds), NEWLINE) == Join(ds, ", ")
  {
    var n := |ds|;
    var init, last := ds[..n - 1], ds[n - 1];
    var pre := Prefix(ds, n - 1);
    SplitLast(ds);
    RemoveAllAppend(pre, last, NEWLINE);
    FlatPrefix(ds, n - 1);
    RemoveAllAbsent(last, NEWLINE);
    JoinTerminated(init, last, ", ");
  }

  /** With the line breaks taken out, the text is the comma-separated list of the numbers. */
  lemma Flat(xs: seq<int>)
    requires xs != []
    ensures RemoveAll(SixPerLine(xs), NEWLINE) == Join(Decimals(xs), ", ")
  {
    DecimalsUnbroken(xs);
    FlatLayout(Decimals(xs));
  }

  lemma {:induction false} PrefixNewlines(ds: seq<string>, k: nat)
    requires k <= |ds| && Unbroken(ds)
    ensures CountChar(Prefix(ds, k), NEWLINE) == k / NUMBERS_PER_LINE
  {
    if k > 0 {
      PrefixNewlines(ds, k - 1);
      EntryFacts(ds, k);
      CountCharAppend(Prefix(ds, k - 1), Entry(ds, k), NEWLINE);
    }
  }

  lemma LayoutNewlines(ds: seq<string>)
    requires |ds| > 0 && Unbroken(ds)
    ensures CountChar(Layout(ds), NEWLINE) == (|ds| - 1) / NUMBERS_PER_LINE
  {
    var n := |ds|;
    var last := ds[n - 1];
    PrefixNewlines(ds, n - 1);
    CountCharAbsent(last, NEWLINE);
    CountCharAppend(Prefix(ds, n - 1), last, NEWLINE);
  }

  /** `n` numbers take up `(n - 1) / 6 + 1` lines: a break follows every sixth but the last. */
  lemma LineCount(xs: seq<int>)
    requires xs != []
    ensures CountChar(SixPerLine(xs), NEWLINE) == (|xs| - 1) / NUMBERS_PER_LINE
  {
    DecimalsUnbroken(xs);
    LayoutNewlines(Decimals(xs));
  }

  /** `arrayContains`. */
  method ArrayContains(theArr: array<int>, theNum: int) returns (b: bool)
    ensures b <==> theNum in theArr[..]
  {
    for i := 0 to theArr.Length
      invariant theNum !in theArr[..i]
    {
      if theArr[i] == theNum {
        return true;
      }
    }
    return false;
  }
}
