/** `setup_chromadb`: collect the project's code files, turn them into
    documents with ids `id_0, id_1, ...`, and replace those ids in the store. */
module Indexing {
  import opened Text
  import opened Extraction
  import opened Store

  /** Which store call raises during the write, if any. */
  datatype StoreFault = NoFault | DeleteFails | AddFails

  /** The document stored for a file: its path, a newline, then its content. */
  function DocumentText(f: CodeFile): string {
    f.path + "\n" + f.content
  }

  function Documents(files: seq<CodeFile>): seq<string> {
    seq(|files|, i requires 0 <= i < |files| => DocumentText(files[i]))
  }

  function Metadatas(files: seq<CodeFile>): seq<Metadata> {
    seq(|files|, i requires 0 <= i < |files| => Metadata(files[i].path))
  }

  /** The id of the i-th collected file. */
  function IdOf(i: nat): string {
    "id_" + NatToString(i)
  }

  function Ids(n: nat): seq<string> {
    seq(n, i requires 0 <= i < n => IdOf(i))
  }

  /** Different positions get different ids. */
  lemma IdOfInjective(i: nat, j: nat)
    requires IdOf(i) == IdOf(j)
    ensures i == j
  {
    assert IdOf(i)[3..] == NatToString(i);
    assert IdOf(j)[3..] == NatToString(j);
    NatToStringInjective(i, j);
  }

  /** The ids of one batch never repeat, so `add` does not reject the batch. */
  lemma IdsDistinct(n: nat)
    ensures Distinct(Ids(n))
  {
    forall i, j | 0 <= i < j < n
      ensures Ids(n)[i] != Ids(n)[j]
    {
      if Ids(n)[i] == Ids(n)[j] {
        IdOfInjective(i, j);
      }
    }
  }

  /** The content of a stored file, read back from its document and its metadata path. */
  function ContentOf(doc: string, meta: Metadata): string
    requires |meta.path| < |doc|
  {
    doc[|meta.path| + 1..]
  }

  /** A document starts with the path its metadata carries, and the rest after
      the newline is exactly the file's content. */
  lemma DocumentRoundTrip(f: CodeFile)
    ensures |f.path| < |DocumentText(f)|
    ensures DocumentText(f)[..|f.path|] == f.path
    ensures DocumentText(f)[|f.path|] == '\n'
    ensures ContentOf(DocumentText(f), Metadata(f.path)) == f.content
  {
  }

  /** The stored map after a successful write: the batch's ids are deleted,
      then the batch is added. */
  function Reindexed(m: map<string, StoredDoc>, files: seq<CodeFile>): map<string, StoredDoc> {
    var ids := Ids(|files|);
    Inserted(m - IdSet(ids), ids, Documents(files), Metadatas(files))
  }

  /** After a successful write, `id_k` for each collected file k holds exactly
      that file's document and path, and every other key is as before. */
  lemma ReindexedSpec(m: map<string, StoredDoc>, files: seq<CodeFile>)
    ensures Reindexed(m, files).Keys == m.Keys + IdSet(Ids(|files|))
    ensures forall k :: 0 <= k < |files| ==>
      IdOf(k) in Reindexed(m, files) &&
      Reindexed(m, files)[IdOf(k)] == StoredDoc(DocumentText(files[k]), Metadata(files[k].path))
    ensures forall key :: key in m && key !in IdSet(Ids(|files|)) ==> Reindexed(m, files)[key] == m[key]
  {
    var ids := Ids(|files|);
    IdsDistinct(|files|);
    var base := m - IdSet(ids);
    forall i | 0 <= i < |ids|
      ensures ids[i] !in base
    {
      assert ids[i] in IdSet(ids);
    }
    InsertedFresh(base, ids, Documents(files), Metadatas(files));
    forall k | 0 <= k < |files|
      ensures IdOf(k) in Reindexed(m, files)
      ensures Reindexed(m, files)[IdOf(k)] == StoredDoc(DocumentText(files[k]), Metadata(files[k].path))
    {
      assert ids[k] == IdOf(k);
      assert ids[k] in IdSet(ids);
    }
  }

  /** An `id_k` left over from an earlier, larger run (k at least the new
      file count) is neither deleted nor overwritten. */
  lemma StaleIdsSurvive(m: map<string, StoredDoc>, files: seq<CodeFile>, k: nat)
    requires k >= |files|
    requires IdOf(k) in m
    ensures IdOf(k) in Reindexed(m, files)
    ensures Reindexed(m, files)[IdOf(k)] == m[IdOf(k)]
  {
    ReindexedSpec(m, files);
    if IdOf(k) in IdSet(Ids(|files|)) {
      var j :| 0 <= j < |files| && Ids(|files|)[j] == IdOf(k);
      IdOfInjective(j, k);
    }
  }

  /** Indexing the same files twice leaves the same store as indexing them
      once: no id is duplicated and nothing accumulates. */
  lemma ReindexIdempotent(m: map<string, StoredDoc>, files: seq<CodeFile>)
    ensures Reindexed(Reindexed(m, files), files) == Reindexed(m, files)
  {
    var once := Reindexed(m, files);
    ReindexedSpec(m, files);
    ReindexedSpec(once, files);
    var twice := Reindexed(once, files);
    forall key | key in twice
      ensures twice[key] == once[key]
    {
      if key in IdSet(Ids(|files|)) {
        var k :| 0 <= k < |files| && Ids(|files|)[k] == key;
      }
    }
  }

  /** A successful write leaves at least one stored document per collected file. */
  lemma ReindexedCount(m: map<string, StoredDoc>, files: seq<CodeFile>)
    ensures |Reindexed(m, files)| >= |files|
  {
    var keys := Reindexed(m, files).Keys;
    var batch := IdSet(Ids(|files|));
    ReindexedSpec(m, files);
    IdsDistinct(|files|);
    DistinctSetSize(Ids(|files|));
    assert keys == batch + (keys - batch);
    assert |keys| == |batch| + |keys - batch|;
  }

  /** What `setup_chromadb` returns: the file count, or 0 when nothing was
      collected or a store call raised. */
  function IndexedCount(files: seq<CodeFile>, fault: StoreFault): nat {
    if files == [] || fault != NoFault then 0 else |files|
  }

  /** The stored map after `setup_chromadb`: untouched when nothing was
      collected or `delete` raised; the batch's ids removed when `add`
      raised; otherwise reindexed. */
  function StoreAfterIndex(m: map<string, StoredDoc>, files: seq<CodeFile>, fault: StoreFault): map<string, StoredDoc> {
    if files == [] || fault == DeleteFails then m
    else if fault == AddFails then m - IdSet(Ids(|files|))
    else Reindexed(m, files)
  }

  /** `setup_chromadb` against `store`, given the walk of the project root
      and which store call fails. Returns the number of documents written,
      0 when nothing was collected or the write failed. */
  method SetupIndex(store: Collection, walk: seq<WalkDir>, fault: StoreFault) returns (count: nat)
    modifies store
    ensures count == IndexedCount(Collect(walk), fault)
    ensures store.entries == StoreAfterIndex(old(store.entries), Collect(walk), fault)
  {
    var codeFiles := CollectCodeFiles(walk);
    if codeFiles == [] {
      return 0;
    }
    var documents := Documents(codeFiles);
    var metadatas := Metadatas(codeFiles);
    var ids := Ids(|codeFiles|);
    var deleted := store.Delete(ids, fault == DeleteFails);
    if !deleted {
      return 0;
    }
    IdsDistinct(|codeFiles|);
    var added := store.Add(ids, documents, metadatas, fault == AddFails);
    if !added {
      return 0;
    }
    return |codeFiles|;
  }
}
