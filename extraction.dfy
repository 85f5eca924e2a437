/** The file-collection half of `setup_chromadb`: which files of the
    project tree are read, and in which order they become code files. */
module Extraction {
  import opened Wrappers
  import opened Text

  /** The extensions `setup_chromadb` accepts, in the order of its tuple. */
  const SupportedExtensions: seq<string> :=
    [".html", ".js", ".jsx", ".ts", ".tsx", ".css", ".py", ".java", ".php"]

  /** A file as the directory walk reports it; `content` is None when opening
      or UTF-8 decoding the file raises. */
  datatype FileEntry = FileEntry(name: string, content: Option<string>)

  /** One step of `os.walk`: a directory, given by its path components below
      the walked root, and the files directly inside it. */
  datatype WalkDir = WalkDir(dir: seq<string>, files: seq<FileEntry>)

  /** A collected file: its path relative to the project root and its text. */
  datatype CodeFile = CodeFile(path: string, content: string)

  /** Python's `name.endswith(suffixes)` for a tuple of suffixes. */
  predicate EndsWithAny(s: string, suffixes: seq<string>)
    decreases |suffixes|
  {
    |suffixes| > 0 && (EndsWith(s, suffixes[0]) || EndsWithAny(s, suffixes[1..]))
  }

  lemma {:induction false} EndsWithAnyIff(s: string, suffixes: seq<string>)
    ensures EndsWithAny(s, suffixes) <==> exists k :: 0 <= k < |suffixes| && EndsWith(s, suffixes[k])
    decreases |suffixes|
  {
    if |suffixes| > 0 {
      EndsWithAnyIff(s, suffixes[1..]);
      if exists k :: 0 <= k < |suffixes| && EndsWith(s, suffixes[k]) {
        var k :| 0 <= k < |suffixes| && EndsWith(s, suffixes[k]);
        if k > 0 {
          assert suffixes[1..][k - 1] == suffixes[k];
        }
      }
    }
  }

  /** The filter of `setup_chromadb`: the lower-cased name ends with one of
      the supported extensions. */
  predicate IsSupported(name: string) {
    exists k :: 0 <= k < |SupportedExtensions| && EndsWith(Lower(name), SupportedExtensions[k])
  }

  /** The code's test, `name.lower().endswith(supported_extensions)`, is exactly the filter. */
  lemma IsSupportedIff(name: string)
    ensures IsSupported(name) <==> EndsWithAny(Lower(name), SupportedExtensions)
  {
    EndsWithAnyIff(Lower(name), SupportedExtensions);
  }

  /** The filter ignores letter case: a name and its lower-cased form are treated alike. */
  lemma IsSupportedIgnoresCase(name: string)
    ensures IsSupported(Lower(name)) == IsSupported(name)
  {
    LowerIdempotent(name);
  }

  /** Path of a file relative to the walked root, as `os.path.relpath` gives it (POSIX separator). */
  function RelPath(dir: seq<string>, name: string): string {
    Join("/", dir + [name])
  }

  /** A file is kept when its name passes the filter and its content could be read. */
  predicate Kept(f: FileEntry) {
    IsSupported(f.name) && f.content.Some?
  }

  function Collected(dir: seq<string>, f: FileEntry): CodeFile
    requires f.content.Some?
  {
    CodeFile(RelPath(dir, f.name), f.content.value)
  }

  /** The code files the inner loop appends for one directory, in listing order. */
  function CollectDir(dir: seq<string>, files: seq<FileEntry>): seq<CodeFile>
    decreases |files|
  {
    if files == [] then []
    else
      var f := files[|files| - 1];
      CollectDir(dir, files[..|files| - 1]) + (if Kept(f) then [Collected(dir, f)] else [])
  }

  /** The code files the whole walk yields, in walk order. */
  function Collect(walk: seq<WalkDir>): seq<CodeFile>
    decreases |walk|
  {
    if walk == [] then []
    else
      var d := walk[|walk| - 1];
      Collect(walk[..|walk| - 1]) + CollectDir(d.dir, d.files)
  }

  /** The nested loops of `setup_chromadb` that build `code_files`; an
      unreadable file is skipped and the walk goes on. */
  method CollectCodeFiles(walk: seq<WalkDir>) returns (codeFiles: seq<CodeFile>)
    ensures codeFiles == Collect(walk)
  {
    codeFiles := [];
    for i := 0 to |walk|
      invariant codeFiles == Collect(walk[..i])
    {
      var d := walk[i];
      for j := 0 to |d.files|
        invariant codeFiles == Collect(walk[..i]) + CollectDir(d.dir, d.files[..j])
      {
        var f := d.files[j];
        IsSupportedIff(f.name);
        if EndsWithAny(Lower(f.name), SupportedExtensions) {
          match f.content {
            case Some(text) =>
              codeFiles := codeFiles + [CodeFile(RelPath(d.dir, f.name), text)];
            case None =>
          }
        }
        assert d.files[..j + 1][..j] == d.files[..j];
      }
      assert d.files[..|d.files|] == d.files;
      assert walk[..i + 1][..i] == walk[..i];
    }
    assert walk[..|walk|] == walk;
  }

  lemma {:induction false} CollectDirMembership(dir: seq<string>, files: seq<FileEntry>, c: CodeFile)
    ensures c in CollectDir(dir, files) <==>
      exists j :: 0 <= j < |files| && Kept(files[j]) && c == Collected(dir, files[j])
    decreases |files|
  {
    if files != [] {
      var init := files[..|files| - 1];
      var f := files[|files| - 1];
      var added := if Kept(f) then [Collected(dir, f)] else [];
      assert CollectDir(dir, files) == CollectDir(dir, init) + added;
      CollectDirMembership(dir, init, c);
      if c in CollectDir(dir, files) {
        if c in CollectDir(dir, init) {
          var j :| 0 <= j < |init| && Kept(init[j]) && c == Collected(dir, init[j]);
          assert files[j] == init[j];
        } else {
          assert c in added;
          assert Kept(files[|files| - 1]) && c == Collected(dir, files[|files| - 1]);
        }
      }
      if exists j :: 0 <= j < |files| && Kept(files[j]) && c == Collected(dir, files[j]) {
        var j :| 0 <= j < |files| && Kept(files[j]) && c == Collected(dir, files[j]);
        if j < |files| - 1 {
          assert init[j] == files[j];
        } else {
          assert c in added;
        }
      }
    }
  }

  /** A code file is collected exactly when some walked file passes the
      filter, was readable, and gives that path and content. */
  lemma {:induction false} CollectMembership(walk: seq<WalkDir>, c: CodeFile)
    ensures c in Collect(walk) <==>
      exists i, j :: 0 <= i < |walk| && 0 <= j < |walk[i].files| &&
        Kept(walk[i].files[j]) && c == Collected(walk[i].dir, walk[i].files[j])
    decreases |walk|
  {
    if walk != [] {
      var init := walk[..|walk| - 1];
      var d := walk[|walk| - 1];
      CollectMembership(init, c);
      CollectDirMembership(d.dir, d.files, c);
      if exists i, j :: 0 <= i < |walk| && 0 <= j < |walk[i].files| &&
          Kept(walk[i].files[j]) && c == Collected(walk[i].dir, walk[i].files[j]) {
        var i, j :| 0 <= i < |walk| && 0 <= j < |walk[i].files| &&
          Kept(walk[i].files[j]) && c == Collected(walk[i].dir, walk[i].files[j]);
        if i < |walk| - 1 {
          assert init[i] == walk[i];
        }
      }
    }
  }

  /** Collection follows walk order: two walks in sequence collect the two results in sequence. */
  lemma {:induction false} CollectAppend(w1: seq<WalkDir>, w2: seq<WalkDir>)
    ensures Collect(w1 + w2) == Collect(w1) + Collect(w2)
    decreases |w2|
  {
    if w2 == [] {
      assert w1 + w2 == w1;
    } else {
      var w := w1 + w2;
      var init := w2[..|w2| - 1];
      var last := w2[|w2| - 1];
      assert w[..|w| - 1] == w1 + init;
      assert w[|w| - 1] == last;
      CollectAppend(w1, init);
      calc {
        Collect(w);
        Collect(w1 + init) + CollectDir(last.dir, last.files);
        Collect(w1) + Collect(init) + CollectDir(last.dir, last.files);
        { AppendAssociative(Collect(w1), Collect(init), CollectDir(last.dir, last.files)); }
        Collect(w1) + Collect(w2);
      }
    }
  }
}
