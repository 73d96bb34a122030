/** Fixture files: what is read from disk, and the index name derived from
    a file's base name. */
module Fixtures {
  import opened Types
  import opened Text

  /** One fixture file, fixed once it has been read. */
  datatype FixtureFile = FixtureFile(path: string, fileName: string, content: bytes)
  {
    /** fileNameWithoutExtension: the index name is the base name with the
        first occurrence of its extension removed. The extension is the
        name's suffix from its last '.', so it always occurs; its first
        occurrence can lie before the suffix. */
    function FileNameWithoutExtension(): (fn: string)
      ensures '.' !in fileName ==> fn == fileName
      ensures Ext(fileName) == "" ==> fn == fileName
      ensures Ext(fileName) != "" ==>
        var ext := Ext(fileName);
        var i := IndexOf(fileName, ext);
        |fn| == |fileName| - |ext| && 0 <= i <= |fn| &&
        (forall j :: 0 <= j < i ==> !OccursAt(fileName, ext, j)) &&
        fileName == fn[..i] + ext + fn[i..]
    {
      var ext := Ext(fileName);
      assert ext != "" ==> OccursAt(fileName, ext, |fileName| - |ext|);
      RemoveFirst(fileName, ext)
    }
  }

  /** A base name `stem.ext` whose stem has no '.' has index name `stem`:
      the extension's only occurrence is the suffix. */
  lemma StripsOnlyExtension(f: FixtureFile, stem: string, ext: string)
    requires f.fileName == stem + ext
    requires '.' !in stem
    requires |ext| > 0 && ext[0] == '.' && '.' !in ext[1..] && '/' !in ext
    ensures Ext(f.fileName) == ext
    ensures f.FileNameWithoutExtension() == stem
  {
    assert Ext(f.fileName) == ext by {
      ExtOfDotSuffix(stem, ext);
    }
    assert IndexOf(f.fileName, ext) == |stem| by {
      IndexOfAfterStem(stem, ext, "");
      assert stem + ext + "" == stem + ext;
    }
    RemovesFirstOccurrence(f, |stem|);
    CutOut(f.fileName, stem, ext, "");
  }

  /** Removal is of the first occurrence, not of the suffix: in
      `pre.ext mid .ext` the earlier `.ext` goes and the suffix stays. */
  lemma RemovesEarlierOccurrence(f: FixtureFile, pre: string, mid: string, ext: string)
    requires f.fileName == pre + ext + mid + ext
    requires '.' !in pre
    requires |ext| > 0 && ext[0] == '.' && '.' !in ext[1..] && '/' !in ext
    ensures Ext(f.fileName) == ext
    ensures f.FileNameWithoutExtension() == pre + mid + ext
  {
    ExtAndFirstOccurrence(f.fileName, pre, mid, ext);
    RemovesFirstOccurrence(f, |pre|);
    CutOutFirstCopy(f.fileName, pre, ext, mid);
  }

  /** In `pre.ext mid .ext` the extension is `.ext` and occurs first after `pre`. */
  lemma ExtAndFirstOccurrence(name: string, pre: string, mid: string, ext: string)
    requires name == pre + ext + mid + ext
    requires '.' !in pre
    requires |ext| > 0 && ext[0] == '.' && '.' !in ext[1..] && '/' !in ext
    ensures Ext(name) == ext
    ensures IndexOf(name, ext) == |pre|
  {
    assert IndexOf(name, ext) == |pre| by {
      IndexOfAfterStem(pre, ext, mid + ext);
      assert pre + ext + (mid + ext) == name;
    }
    ExtOfDotSuffix(pre + ext + mid, ext);
  }

  /** The index name of `example.json` is `example`. */
  lemma ExampleIndexName(f: FixtureFile)
    requires f.fileName == "example.json"
    ensures f.FileNameWithoutExtension() == "example"
  {
    assert f.fileName == "example" + ".json" by {}
    StripsOnlyExtension(f, "example", ".json");
  }

  /** The index name of `x.jsonfoo.json` is `xfoo.json`. */
  lemma FirstOccurrenceNotSuffix(f: FixtureFile)
    requires f.fileName == "x.jsonfoo.json"
    ensures f.FileNameWithoutExtension() == "xfoo.json"
  {
    assert f.fileName == "x" + ".json" + "foo" + ".json" by {}
    assert "x" + "foo" + ".json" == "xfoo.json" by {}
    RemovesEarlierOccurrence(f, "x", "foo", ".json");
  }

  /** The index name once the extension and its first occurrence are known. */
  lemma RemovesFirstOccurrence(f: FixtureFile, i: nat)
    requires Ext(f.fileName) != "" && IndexOf(f.fileName, Ext(f.fileName)) == i
    ensures i + |Ext(f.fileName)| <= |f.fileName|
    ensures f.FileNameWithoutExtension() == f.fileName[..i] + f.fileName[i + |Ext(f.fileName)|..]
  {
  }

  /** The files read from `fileNames`, in order: each with its path, its
      base name and its content, up to the first that cannot be read; with
      that file's read error, or none when every file was read. */
  ghost predicate ReadInOrder(fileNames: seq<string>, readFile: string -> Result<bytes, string>,
                              parsed: seq<FixtureFile>, err: Option<Error>)
  {
    && |parsed| <= |fileNames|
    && (forall i :: 0 <= i < |parsed| ==>
          readFile(fileNames[i]).Ok? &&
          parsed[i] == FixtureFile(fileNames[i], Base(fileNames[i]), readFile(fileNames[i]).value))
    && (err.None? <==> |parsed| == |fileNames|)
    && (err.Some? ==>
          readFile(fileNames[|parsed|]).Err? &&
          err == Some(FileReadError(fileNames[|parsed|], readFile(fileNames[|parsed|]).error)))
  }

  /** parseFilesContent: every named file, in order, with its base name and
      the content read; stops at the first file that cannot be read,
      keeping the files read before it. */
  method ParseFilesContent(fileNames: seq<string>, readFile: string -> Result<bytes, string>)
    returns (parsedContent: seq<FixtureFile>, err: Option<Error>)
    ensures ReadInOrder(fileNames, readFile, parsedContent, err)
  {
    parsedContent := [];
    for k := 0 to |fileNames|
      invariant |parsedContent| == k
      invariant forall i :: 0 <= i < k ==>
        readFile(fileNames[i]).Ok? &&
        parsedContent[i] == FixtureFile(fileNames[i], Base(fileNames[i]), readFile(fileNames[i]).value)
    {
      var f := fileNames[k];
      var read := readFile(f);
      if read.Err? {
        err := Some(FileReadError(f, read.error));
        return;
      }
      var fixture := FixtureFile(f, Base(f), read.value);
      parsedContent := parsedContent + [fixture];
    }
    err := None;
  }
}
