/** `util.NumberUtils`: lenient parsing of the user's and the draw files' numbers. */
module NumberUtils {
  import opened Wrappers
  import JavaNumbers
  import opened Strings
  import Sets

  const PARSE_DEFAULT := 0

  /** `parseLong`: `Long.parseLong` raised to at least 0, and 0 where it throws. */
  function ParseLong(text: string): (r: int)
    ensures 0 <= r <= JavaNumbers.LONG_MAX
    ensures r != PARSE_DEFAULT ==> JavaNumbers.ParseLong(text) == Some(r)
  {
    match JavaNumbers.ParseLong(text)
    case Some(v) => if v > PARSE_DEFAULT then v else PARSE_DEFAULT
    case None => PARSE_DEFAULT
  }

  /** `parseInteger`: `Integer.parseInt` raised to at least 0, and 0 where it throws. */
  function ParseInteger(text: string): (r: int)
    ensures 0 <= r <= JavaNumbers.INT_MAX
    ensures r != PARSE_DEFAULT ==> JavaNumbers.ParseInt(text) == Some(r)
  {
    match JavaNumbers.ParseInt(text)
    case Some(v) => if v > PARSE_DEFAULT then v else PARSE_DEFAULT
    case None => PARSE_DEFAULT
  }

  /** A written long comes back as itself when it is not negative, as 0 when it is. */
  lemma ParseLongOfString(n: int)
    requires JavaNumbers.IsLong(n)
    ensures ParseLong(JavaNumbers.IntToString(n)) == if n > 0 then n else 0
  {
    JavaNumbers.ParseLongOfString(n);
  }

  lemma ParseIntegerOfString(n: int)
    requires JavaNumbers.IsInt(n)
    ensures ParseInteger(JavaNumbers.IntToString(n)) == if n > 0 then n else 0
  {
    JavaNumbers.ParseIntOfString(n);
  }

  /** `parseCurrency`'s text after a leading `$` is dropped. */
  function DropDollar(text: string): (r: string)
    ensures |text| > 0 && text[0] == '$' ==> r == text[1..]
    ensures (|text| == 0 || text[0] != '$') ==> r == text
  {
    if |text| > 0 && text[0] == '$' then text[1..] else text
  }

  /** What `parseCurrency` computes: the long after one `$` and all commas are dropped. */
  function CurrencyValue(text: string): Option<int> {
    JavaNumbers.ParseLong(RemoveAll(DropDollar(text), ','))
  }

  /** The loop shared by `parseCurrency`, `Draw.parseInt` and `Draw.parseLong`: cut out the first comma while there is one. */
  method RemoveCommas(text: string) returns (temp: string)
    ensures temp == RemoveAll(text, ',')
  {
    temp := text;
    while CharIndex(temp, ',') != -1
      invariant RemoveAll(temp, ',') == RemoveAll(text, ',')
      decreases |temp|
    {
      var index := CharIndex(temp, ',');
      RemoveAllDeleteOne(temp, index, ',');
      temp := temp[..index] + temp[index + 1..];
    }
    RemoveAllAbsent(temp, ',');
  }

  /** `parseCurrency`; `None` stands for the `NumberFormatException` it lets through. */
  method ParseCurrency(text: string) returns (r: Option<int>)
    ensures r == CurrencyValue(text)
  {
    var temp := text;
    if |temp| > 0 && temp[0] == '$' {
      temp := temp[1..];
    }
    temp := RemoveCommas(temp);
    r := JavaNumbers.ParseLong(temp);
  }

  /** A dollar amount with commas between any of its digits is read as that amount. */
  lemma CurrencyOfGrouped(n: int, grouped: string)
    requires 0 <= n <= JavaNumbers.LONG_MAX
    requires RemoveAll(grouped, ',') == JavaNumbers.IntToString(n)
    ensures CurrencyValue("$" + grouped) == Some(n)
    ensures (|grouped| == 0 || grouped[0] != '$') ==> CurrencyValue(grouped) == Some(n)
  {
    assert ("$" + grouped)[1..] == grouped;
    JavaNumbers.ParseLongOfString(n);
  }

  /** The characters `Character.isWhitespace` accepts in the ASCII range. */
  predicate IsWhitespace(c: char) {
    c == ' ' || c == '\t' || c == '\n' || c == '\U{B}' || c == '\U{C}' || c == '\r'
    || ('\U{1C}' <= c <= '\U{1F}')
  }

  /** Length of the run of non-whitespace characters that starts `s`. */
  function WordLength(s: string): (n: nat)
    ensures n <= |s|
    ensures forall i :: 0 <= i < n ==> !IsWhitespace(s[i])
    ensures n < |s| ==> IsWhitespace(s[n])
  {
    if s == [] || IsWhitespace(s[0]) then 0 else 1 + WordLength(s[1..])
  }

  /** The tokens a `Scanner` with its default delimiter sees in `s`. */
  function Tokens(s: string): (ts: seq<string>)
    ensures forall i :: 0 <= i < |ts| ==> |ts[i]| > 0
    decreases |s|
  {
    if s == [] then []
    else if IsWhitespace(s[0]) then Tokens(s[1..])
    else var n := WordLength(s); [s[..n]] + Tokens(s[n..])
  }

  /** The values of the tokens before the first one `hasNextInt` refuses. */
  function LeadingInts(ts: seq<string>): (xs: seq<int>)
    ensures |xs| <= |ts|
    ensures forall i :: 0 <= i < |xs| ==> JavaNumbers.ParseInt(ts[i]) == Some(xs[i])
    ensures |xs| < |ts| ==> JavaNumbers.ParseInt(ts[|xs|]).None?
  {
    if ts == [] then []
    else match JavaNumbers.ParseInt(ts[0])
      case None => []
      case Some(v) => [v] + LeadingInts(ts[1..])
  }

  function Zeros(n: nat): (z: seq<int>)
    ensures |z| == n && forall i :: 0 <= i < n ==> z[i] == 0
  {
    if n == 0 then [] else Zeros(n - 1) + [0]
  }

  /**
   * What `parseNumbers` returns: an array of `(length + 1) / 3` slots, the leading
   * integers of the text in front and zeros behind; `None` where there are more integers
   * than slots and the store runs off the end of the array.
   */
  function NumbersValue(text: string): Option<seq<int>> {
    var xs := LeadingInts(Tokens(text));
    var size := (|text| + 1) / 3;
    if |xs| > size then None else Some(xs + Zeros(size - |xs|))
  }

  /** `parseNumbers`, reading the scanner's tokens in order. */
  method ParseNumbers(text: string) returns (r: Option<array<int>>)
    ensures r.Some? <==> NumbersValue(text).Some?
    ensures r.Some? ==> fresh(r.value) && r.value[..] == NumbersValue(text).value
  {
    var size := (|text| + 1) / 3;
    var result := new int[size](_ => 0);
    var tokens := Tokens(text);
    ghost var xs := LeadingInts(tokens);
    var i := 0;
    while i < |tokens| && JavaNumbers.ParseInt(tokens[i]).Some?
      invariant 0 <= i <= |xs| && i <= size
      invariant result[..i] == xs[..i]
      invariant forall j :: i <= j < size ==> result[j] == 0
      decreases |tokens| - i
    {
      if i == size {
        assert |xs| > size;
        return None;
      }
      result[i] := JavaNumbers.ParseInt(tokens[i]).value;
      i := i + 1;
    }
    assert i == |xs|;
    assert result[..] == result[..i] + result[i..];
    assert result[i..] == Zeros(size - i);
    r := Some(result);
  }

  /** A number from 0 to 99 written with two digits, as the draw files print balls. */
  function TwoDigits(n: int): (s: string)
    requires 0 <= n < 100
    ensures |s| == 2
  {
    [JavaNumbers.DigitChar(n / 10), JavaNumbers.DigitChar(n % 10)]
  }

  function TwoDigitWords(ns: seq<int>): seq<string>
    requires forall i :: 0 <= i < |ns| ==> 0 <= ns[i] < 100
  {
    seq(|ns|, i requires 0 <= i < |ns| => TwoDigits(ns[i]))
  }

  lemma ParseTwoDigits(n: int)
    requires 0 <= n < 100
    ensures JavaNumbers.ParseInt(TwoDigits(n)) == Some(n)
  {
    var s := TwoDigits(n);
    assert JavaNumbers.DigitValue(s[0]) == n / 10 && JavaNumbers.DigitValue(s[1]) == n % 10;
    assert s[..1] == [s[0]] && [s[0]][..0] == [];
    assert JavaNumbers.DigitsValue(s[..1]) == n / 10;
  }

  lemma WordLengthOf(w: string, rest: string)
    requires forall i :: 0 <= i < |w| ==> !IsWhitespace(w[i])
    requires rest == [] || IsWhitespace(rest[0])
    ensures WordLength(w + rest) == |w|
  {
    if w != [] {
      assert (w + rest)[1..] == w[1..] + rest;
      WordLengthOf(w[1..], rest);
    }
  }

  lemma {:induction false} WordLengthBefore(a: string, c: char, b: string)
    requires IsWhitespace(c)
    ensures WordLength(a + [c] + b) == WordLength(a)
  {
    if a != [] && !IsWhitespace(a[0]) {
      assert (a + [c] + b)[1..] == a[1..] + [c] + b;
      WordLengthBefore(a[1..], c, b);
    } else if a == [] {
      assert (a + [c] + b)[0] == c;
    } else {
      assert (a + [c] + b)[0] == a[0];
    }
  }

  /** A whitespace character splits the scanner's tokens: those before it, then those after. */
  lemma {:induction false} TokensSplit(a: string, c: char, b: string)
    requires IsWhitespace(c)
    ensures Tokens(a + [c] + b) == Tokens(a) + Tokens(b)
    decreases |a|
  {
    var s := a + [c] + b;
    if a == [] {
      assert s == [c] + b;
      assert s[1..] == b;
    } else if IsWhitespace(a[0]) {
      assert s[1..] == a[1..] + [c] + b;
      TokensSplit(a[1..], c, b);
    } else {
      var n := WordLength(a);
      WordLengthBefore(a, c, b);
      assert s[..n] == a[..n];
      assert s[n..] == a[n..] + [c] + b;
      TokensSplit(a[n..], c, b);
      Assoc([a[..n]], Tokens(a[n..]), Tokens(b));
    }
  }

  /** A non-empty run without whitespace is a single token. */
  lemma TokensOfWord(w: string)
    requires |w| > 0 && forall i :: 0 <= i < |w| ==> !IsWhitespace(w[i])
    ensures Tokens(w) == [w]
  {
    WordLengthOf(w, "");
    assert w + "" == w;
    assert w[|w|..] == "";
  }

  lemma {:induction false} TokensOfTwoDigitLine(ns: seq<int>)
    requires |ns| > 0
    requires forall i :: 0 <= i < |ns| ==> 0 <= ns[i] < 100
    ensures Tokens(Join(TwoDigitWords(ns), " ")) == TwoDigitWords(ns)
  {
    var ws := TwoDigitWords(ns);
    var w := ws[0];
    assert !IsWhitespace(w[0]) && !IsWhitespace(w[1]);
    if |ns| == 1 {
      WordLengthOf(w, "");
      assert Join(ws, " ") == w + "";
    } else {
      var rest := Join(ws[1..], " ");
      assert Join(ws, " ") == w + (" " + rest);
      WordLengthOf(w, " " + rest);
      assert (w + (" " + rest))[..2] == w;
      assert (w + (" " + rest))[2..] == " " + rest;
      assert (" " + rest)[1..] == rest;
      assert TwoDigitWords(ns[1..]) == ws[1..];
      TokensOfTwoDigitLine(ns[1..]);
    }
  }

  lemma {:induction false} LeadingTwoDigits(ns: seq<int>)
    requires forall i :: 0 <= i < |ns| ==> 0 <= ns[i] < 100
    ensures LeadingInts(TwoDigitWords(ns)) == ns
  {
    if ns != [] {
      ParseTwoDigits(ns[0]);
      assert TwoDigitWords(ns)[1..] == TwoDigitWords(ns[1..]);
      LeadingTwoDigits(ns[1..]);
    }
  }

  /**
   * A line of k two-digit balls separated by single spaces is 3k - 1 characters long, so
   * `parseNumbers` fills exactly k slots and gives back the balls.
   */
  lemma ParseNumbersOfTwoDigitLine(ns: seq<int>)
    requires |ns| > 0
    requires forall i :: 0 <= i < |ns| ==> 0 <= ns[i] < 100
    ensures NumbersValue(Join(TwoDigitWords(ns), " ")) == Some(ns)
  {
    var ws := TwoDigitWords(ns);
    TokensOfTwoDigitLine(ns);
    LeadingTwoDigits(ns);
    JoinTwoDigitLength(ws);
    assert ns + Zeros(0) == ns;
  }

  lemma {:induction false} JoinTwoDigitLength(ws: seq<string>)
    requires |ws| > 0 && forall i :: 0 <= i < |ws| ==> |ws[i]| == 2
    ensures |Join(ws, " ")| == 3 * |ws| - 1
  {
    if |ws| > 1 {
      JoinTwoDigitLength(ws[1..]);
    }
  }

  /** The pieces `delimit` cuts `content` into at each occurrence of `delimiter`. */
  function Pieces(delimiter: string, content: string): (r: seq<string>)
    requires |delimiter| > 0
    ensures |r| > 0
    decreases |content|
  {
    var i := IndexOf(content, delimiter);
    if i == -1 then [content]
    else [content[..i]] + Pieces(delimiter, content[i + |delimiter|..])
  }

  /**
   * `delimit(String, String)`. An empty delimiter is found at position 0 forever and the
   * source never returns, so it is excluded.
   */
  method Delimit(delimiter: string, content: string) returns (result: seq<string>)
    requires |delimiter| > 0
    ensures result == Pieces(delimiter, content)
  {
    result := [];
    var builder := content;
    var indexOfDelimiter := IndexOf(builder, delimiter);
    while indexOfDelimiter != -1
      invariant indexOfDelimiter == IndexOf(builder, delimiter)
      invariant result + Pieces(delimiter, builder) == Pieces(delimiter, content)
      decreases |builder|
    {
      result := result + [builder[..indexOfDelimiter]];
      builder := builder[indexOfDelimiter + |delimiter|..];
      indexOfDelimiter := IndexOf(builder, delimiter);
    }
    result := result + [builder];
  }

  /** `delimit(char, String)`. */
  method DelimitChar(delimiter: char, content: string) returns (result: seq<string>)
    ensures result == Pieces([delimiter], content)
  {
    result := Delimit([delimiter], content);
  }

  /** Putting the delimiter back between the pieces gives the content again. */
  lemma {:induction false} JoinPieces(delimiter: string, content: string)
    requires |delimiter| > 0
    ensures Join(Pieces(delimiter, content), delimiter) == content
    decreases |content|
  {
    var i := IndexOf(content, delimiter);
    if i != -1 {
      var j := i + |delimiter|;
      var rest := content[j..];
      JoinPieces(delimiter, rest);
      assert content[i..j] == delimiter;
      assert content == content[..i] + content[i..j] + rest;
      assert Pieces(delimiter, content) == [content[..i]] + Pieces(delimiter, rest);
    }
  }

  /** No piece contains the delimiter. */
  lemma {:induction false} PiecesFree(delimiter: string, content: string)
    requires |delimiter| > 0
    ensures forall p :: p in Pieces(delimiter, content) ==> IndexOf(p, delimiter) == -1
    decreases |content|
  {
    var i := IndexOf(content, delimiter);
    if i == -1 {
    } else {
      var rest := content[i + |delimiter|..];
      PiecesFree(delimiter, rest);
      var first := content[..i];
      assert IndexOf(first, delimiter) == -1 by {
        forall j | 0 <= j ensures !OccursAt(first, delimiter, j) {
          if OccursAt(first, delimiter, j) {
            assert content[j..j + |delimiter|] == first[j..j + |delimiter|];
            assert OccursAt(content, delimiter, j);
          }
        }
      }
    }
  }

  /** Cutting at a character gives back pieces that were joined with it and do not hold it. */
  lemma {:induction false} PiecesOfJoin(c: char, ps: seq<string>)
    requires |ps| > 0
    requires forall i :: 0 <= i < |ps| ==> c !in ps[i]
    ensures Pieces([c], Join(ps, [c])) == ps
  {
    if |ps| == 1 {
      IndexOfChar(ps[0], c);
    } else {
      var rest := Join(ps[1..], [c]);
      assert Join(ps, [c]) == ps[0] + [c] + rest;
      IndexOfAfter(ps[0], c, rest);
      assert (ps[0] + [c] + rest)[..|ps[0]|] == ps[0];
      assert (ps[0] + [c] + rest)[|ps[0]| + 1..] == rest;
      PiecesOfJoin(c, ps[1..]);
    }
  }

  /** Cutting at a character makes one piece more than there are occurrences of it. */
  lemma PieceCount(c: char, content: string)
    ensures |Pieces([c], content)| == CountChar(content, c) + 1
  {
    var ps := Pieces([c], content);
    PiecesFree([c], content);
    forall i | 0 <= i < |ps| ensures c !in ps[i] {
      assert ps[i] in ps;
      IndexOfChar(ps[i], c);
    }
    JoinPieces([c], content);
    JoinCount(c, ps);
  }

  lemma {:induction false} JoinCount(c: char, ps: seq<string>)
    requires |ps| > 0
    requires forall i :: 0 <= i < |ps| ==> c !in ps[i]
    ensures CountChar(Join(ps, [c]), c) == |ps| - 1
  {
    CountCharAbsent(ps[0], c);
    if |ps| > 1 {
      JoinCount(c, ps[1..]);
      CountCharAppend(ps[0], [c], c);
      CountCharAppend(ps[0] + [c], Join(ps[1..], [c]), c);
      CountCharSingle(c, c);
    }
  }

  /** What `parseCustomNumbers` returns: the positive values of the space-separated words. */
  function CustomNumbers(input: string): set<int> {
    (set p | p in Pieces(" ", input) :: ParseInteger(p)) - {PARSE_DEFAULT}
  }

  /** `parseCustomNumbers`. */
  method ParseCustomNumbers(input: string) returns (result: set<int>)
    ensures result == CustomNumbers(input)
    ensures forall x :: x in result ==> 0 < x <= JavaNumbers.INT_MAX
  {
    var asStrings := DelimitChar(' ', input);
    result := {};
    var i := 0;
    while i < |asStrings|
      invariant 0 <= i <= |asStrings|
      invariant result == set p | p in asStrings[..i] :: ParseInteger(p)
    {
      ImageSnoc(asStrings[..i], asStrings[i]);
      assert asStrings[..i + 1] == asStrings[..i] + [asStrings[i]];
      result := result + {ParseInteger(asStrings[i])};
      i := i + 1;
    }
    assert asStrings[..i] == asStrings;
    result := result - {PARSE_DEFAULT};
  }

  lemma ImageSnoc(ps: seq<string>, p: string)
    ensures (set q | q in ps + [p] :: ParseInteger(q)) == (set q | q in ps :: ParseInteger(q)) + {ParseInteger(p)}
  {
    var l := set q | q in ps + [p] :: ParseInteger(q);
    var r := (set q | q in ps :: ParseInteger(q)) + {ParseInteger(p)};
    forall x | x in l ensures x in r {
      var q :| q in ps + [p] && ParseInteger(q) == x;
    }
    forall x | x in r ensures x in l {
      if x != ParseInteger(p) {
        var q :| q in ps && ParseInteger(q) == x;
        assert q in ps + [p];
      } else {
        assert p in ps + [p];
      }
    }
  }

  /** The text `setAsString` builds from the numbers in the order `xs` visits them. */
  function Listing(xs: seq<int>): string {
    Terminated(JavaNumbers.Decimals(xs), " ")
  }

  /** `xs` visits every member of `s` exactly once. */
  predicate Enumerates(xs: seq<int>, s: set<int>) {
    (forall i, j :: 0 <= i < j < |xs| ==> xs[i] != xs[j])
    && (forall x :: x in s ==> x in xs) && (forall i :: 0 <= i < |xs| ==> xs[i] in s)
  }

  lemma ListingSnoc(xs: seq<int>, x: int)
    ensures Listing(xs + [x]) == Listing(xs) + JavaNumbers.IntToString(x) + " "
  {
    assert JavaNumbers.Decimals(xs + [x]) == JavaNumbers.Decimals(xs) + [JavaNumbers.IntToString(x)];
    TerminatedSnoc(JavaNumbers.Decimals(xs), JavaNumbers.IntToString(x), " ");
  }

  /** `setAsString`: every number followed by a space, in the set's iteration order. */
  method SetAsString(theSet: set<int>) returns (result: string)
    ensures exists xs :: Enumerates(xs, theSet) && result == Listing(xs)
  {
    result := "";
    var left := theSet;
    ghost var done: set<int> := {};
    ghost var order: seq<int> := [];
    while left != {}
      invariant done + left == theSet && done !! left
      invariant Enumerates(order, done)
      invariant result == Listing(order)
      decreases left
    {
      var num := Sets.Pick(left);
      EnumeratesSnoc(order, done, num);
      ListingSnoc(order, num);
      order, done := order + [num], done + {num};
      result := result + JavaNumbers.IntToString(num) + " ";
      left := left - {num};
    }
  }

  lemma EnumeratesSnoc(xs: seq<int>, s: set<int>, x: int)
    requires Enumerates(xs, s) && x !in s
    ensures Enumerates(xs + [x], s + {x})
  {
  }

  /** Cutting at a character gives back pieces that were each terminated by it, and an empty last one. */
  lemma {:induction false} PiecesOfTerminated(c: char, ps: seq<string>)
    requires forall i :: 0 <= i < |ps| ==> c !in ps[i]
    ensures Pieces([c], Terminated(ps, [c])) == ps + [""]
  {
    if ps == [] {
      assert IndexOf("", [c]) == -1;
    } else {
      var rest := Terminated(ps[1..], [c]);
      IndexOfAfter(ps[0], c, rest);
      assert Terminated(ps, [c]) == ps[0] + [c] + rest;
      assert (ps[0] + [c] + rest)[..|ps[0]|] == ps[0];
      assert (ps[0] + [c] + rest)[|ps[0]| + 1..] == rest;
      PiecesOfTerminated(c, ps[1..]);
      assert ps == [ps[0]] + ps[1..];
    }
  }

  /** Reading back what `setAsString` wrote gives the same set of positive numbers. */
  lemma CustomNumbersOfSetAsString(s: set<int>, text: string)
    requires forall x :: x in s ==> 0 < x <= JavaNumbers.INT_MAX
    requires exists xs :: Enumerates(xs, s) && text == Listing(xs)
    ensures CustomNumbers(text) == s
  {
    var xs :| Enumerates(xs, s) && text == Listing(xs);
    var ds := JavaNumbers.Decimals(xs);
    forall i | 0 <= i < |ds| ensures ' ' !in ds[i] {
      JavaNumbers.DecimalHasNoSpace(xs[i]);
    }
    PiecesOfTerminated(' ', ds);
    ValuesOfListingPieces(xs, s);
  }

  lemma ValuesOfListingPieces(xs: seq<int>, s: set<int>)
    requires forall x :: x in s ==> 0 < x <= JavaNumbers.INT_MAX
    requires Enumerates(xs, s)
    ensures (set p | p in JavaNumbers.Decimals(xs) + [""] :: ParseInteger(p)) - {PARSE_DEFAULT} == s
  {
    var ps := JavaNumbers.Decimals(xs) + [""];
    var values := set p | p in ps :: ParseInteger(p);
    forall x | x in s ensures x in values {
      var i :| 0 <= i < |xs| && xs[i] == x;
      assert ps[i] in ps;
      ParseIntegerOfString(x);
    }
    assert ParseInteger(ps[|xs|]) == PARSE_DEFAULT;
    forall v | v in values && v != PARSE_DEFAULT ensures v in s {
      var p :| p in ps && ParseInteger(p) == v;
      var i :| 0 <= i < |ps| && ps[i] == p;
      assert i < |xs|;
      assert xs[i] in s;
      ParseIntegerOfString(xs[i]);
    }
  }

  /** What `listToArray` returns; `None` where some `Integer.parseInt` throws. */
  function ParsedAll(list: seq<string>): (r: Option<seq<int>>)
    ensures r.Some? <==> forall i :: 0 <= i < |list| ==> JavaNumbers.ParseInt(list[i]).Some?
    ensures r.Some? ==> |r.value| == |list|
    ensures r.Some? ==> forall i :: 0 <= i < |list| ==> JavaNumbers.ParseInt(list[i]) == Some(r.value[i])
  {
    if list == [] then Some([])
    else
      var head, tail := JavaNumbers.ParseInt(list[0]), ParsedAll(list[1..]);
      if head.Some? && tail.Some? then Some([head.value] + tail.value) else None
  }

  /** `listToArray`. */
  method ListToArray(theList: seq<string>) returns (r: Option<array<int>>)
    ensures r.Some? <==> ParsedAll(theList).Some?
    ensures r.Some? ==> fresh(r.value) && r.value[..] == ParsedAll(theList).value
  {
    var result := new int[|theList|];
    var i := 0;
    while i < |theList|
      invariant 0 <= i <= |theList|
      invariant forall j :: 0 <= j < i ==> JavaNumbers.ParseInt(theList[j]) == Some(result[j])
    {
      var num := JavaNumbers.ParseInt(theList[i]);
      if num.None? {
        return None;
      }
      result[i] := num.value;
      i := i + 1;
    }
    r := Some(result);
  }

  /** Decimals of Java ints parse back to the same numbers. */
  lemma ParsedAllDecimals(xs: seq<int>)
    requires forall i :: 0 <= i < |xs| ==> JavaNumbers.IsInt(xs[i])
    ensures ParsedAll(JavaNumbers.Decimals(xs)) == Some(xs)
  {
    var ds := JavaNumbers.Decimals(xs);
    forall i | 0 <= i < |xs| ensures JavaNumbers.ParseInt(ds[i]) == Some(xs[i]) {
      JavaNumbers.ParseIntOfString(xs[i]);
    }
    ParsedAllOf(ds, xs);
  }

  lemma {:induction false} ParsedAllOf(list: seq<string>, xs: seq<int>)
    requires |list| == |xs| && forall i :: 0 <= i < |xs| ==> JavaNumbers.ParseInt(list[i]) == Some(xs[i])
    ensures ParsedAll(list) == Some(xs)
  {
    if list != [] {
      ParsedAllOf(list[1..], xs[1..]);
      assert xs == [xs[0]] + xs[1..];
    }
  }
}
