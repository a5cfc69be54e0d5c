/** `util.Directory` (kept under `src/util`): file-name and text-file helpers. */
module Directory {
  import opened Strings
  import NumberUtils
  import Sets

  /** `removeFileExtension(String)`: everything before the last '.', if there is one. */
  function RemoveFileExtension(theFile: string): (r: string)
    ensures r <= theFile
    ensures '.' !in theFile ==> r == theFile
    ensures '.' in theFile ==> |r| < |theFile| && theFile[|r|] == '.' && '.' !in theFile[|r| + 1..]
  {
    if CharIndex(theFile, '.') != -1 then
      theFile[..LastCharIndex(theFile, '.')]
    else theFile
  }

  /** A name, a dot and an extension without dots lose exactly the dot and the extension. */
  lemma RemoveExtension(name: string, ext: string)
    requires '.' !in ext
    ensures RemoveFileExtension(name + "." + ext) == name
  {
    var f := name + "." + ext;
    assert f[|name|] == '.';
    var r := RemoveFileExtension(f);
    assert f[|name| + 1..] == ext;
    assert r == f[..|r|];
    assert f[..|name|] == name;
  }

  /** Only the last extension goes: the operation is not idempotent. */
  lemma RemoveOnlyLastExtension()
    ensures RemoveFileExtension("draws.2012.txt") == "draws.2012"
    ensures RemoveFileExtension("draws.2012") == "draws"
  {
    assert "draws.2012.txt" == "draws.2012" + "." + "txt";
    assert "draws.2012" == "draws" + "." + "2012";
    RemoveExtension("draws.2012", "txt");
    RemoveExtension("draws", "2012");
  }

  /** `removeFileExtension(Set)`: the names without extensions, gathered into a new set. */
  method RemoveFileExtensions(theSet: set<string>) returns (result: set<string>)
    ensures result == set f | f in theSet :: RemoveFileExtension(f)
  {
    result := {};
    var left := theSet;
    while left != {}
      invariant left <= theSet
      invariant result == set f | f in theSet - left :: RemoveFileExtension(f)
      decreases left
    {
      var theFile := Sets.Pick(left);
      ImageAdd(theSet - left, theFile);
      assert theSet - (left - {theFile}) == (theSet - left) + {theFile};
      result := result + {RemoveFileExtension(theFile)};
      left := left - {theFile};
    }
    assert theSet - left == theSet;
  }

  lemma ImageAdd(s: set<string>, f: string)
    ensures (set g | g in s + {f} :: RemoveFileExtension(g))
      == (set g | g in s :: RemoveFileExtension(g)) + {RemoveFileExtension(f)}
  {
  }

  /** Two files that differ only in their extension collapse into one name. */
  lemma ExtensionsCollide()
    ensures (set f | f in {"wa.txt", "wa.csv"} :: RemoveFileExtension(f)) == {"wa"}
  {
    assert "wa.txt" == "wa" + "." + "txt" && "wa.csv" == "wa" + "." + "csv";
    RemoveExtension("wa", "txt");
    RemoveExtension("wa", "csv");
  }

  /** What `textFileAsString` builds from the lines it reads: each line ended by '\n'. */
  function TextOf(lines: seq<string>): string {
    Terminated(lines, "\n")
  }

  /** `textFileAsString`, with the lines the scanner hands out given as a sequence. */
  method TextFileAsString(lines: seq<string>) returns (r: string)
    ensures r == TextOf(lines)
  {
    var builder := "";
    var i := 0;
    while i < |lines|
      invariant 0 <= i <= |lines|
      invariant builder == TextOf(lines[..i])
    {
      TerminatedStep(lines, i, "\n");
      builder := builder + lines[i] + "\n";
      i := i + 1;
    }
    assert lines[..i] == lines;
    r := builder;
  }

  /** Cutting the text at line breaks gives back the lines, then an empty remainder. */
  lemma LinesOfText(lines: seq<string>)
    requires forall i :: 0 <= i < |lines| ==> '\n' !in lines[i]
    ensures NumberUtils.Pieces("\n", TextOf(lines)) == lines + [""]
  {
    NumberUtils.PiecesOfTerminated('\n', lines);
  }
}
