/** The `/analyze-project` request handler `analyze_project`: the rubric
    check, the choice of project root, indexing, the two-phase analysis and
    the cleanup. The archive's bytes, its extraction and the directory
    listing are inputs: `listing` is what `os.listdir` reports for the temp
    directory after the archive was saved and extracted into it, and `tree`
    is what `os.walk` yields for the temp directory. */
module Service {
  import opened Wrappers
  import opened Text
  import opened Extraction
  import opened Store
  import opened Indexing
  import opened Rubric
  import opened Evaluator

  /** An entry of the temp directory's listing. */
  datatype DirEntry = DirEntry(name: string, isDir: bool)

  /** The uploaded archive as the handler sees it once saved and extracted. */
  datatype Upload = Upload(archiveName: string, listing: seq<DirEntry>, tree: seq<WalkDir>)

  /** What the collaborators do during one request: which store call fails
      while indexing, the store's similarity ranking of ids, whether the
      retrieval before the first model call raises, the two model replies, and
      whether dropping the collection fails. */
  datatype Collaborators = Collaborators(
    storeFault: StoreFault,
    ranking: seq<string>,
    retrievalFails: bool,
    validationReply: Option<ValidationReply>,
    scoringReply: Option<ScoringReply>,
    dropFails: bool)

  /** The side effects of a request on the file system and the store, in order. */
  datatype Step =
    | MakeTempDir
    | SaveArchive
    | ExtractArchive
    | Index(root: seq<string>, count: nat)
    | RemoveTempDir
    | DropCollection

  /** The HTTP answer: 200 with the analysis, 400 with a detail, or 500 for an exception. */
  datatype Response =
    | Ok(message: string, analysis: Outcome, criteria: AnalysisRequest)
    | BadRequest(detail: string)
    | ServerError(fault: Fault)

  const SumDetail: string := "Scoring pattern must sum to 100"
  const NoFilesDetail: string := "No relevant code files found or the file is not compilable"

  function Message(count: nat): string {
    "Processed " + NatToString(count) + " files"
  }

  /** Project root as main.py:267-272 choose it, by path components below the
      temp directory: the only entry if the listing holds exactly one entry and
      it is a directory, else the temp directory itself. */
  function RootAsWritten(listing: seq<DirEntry>): (root: seq<string>)
    ensures root != [] <==> |listing| == 1 && listing[0].isDir
    ensures root != [] ==> root == [listing[0].name]
  {
    if |listing| == 1 && listing[0].isDir then [listing[0].name] else []
  }

  /** The archive is saved into the very directory that is listed, so the
      listing always holds it as a file and the single-folder rule never applies. */
  lemma ArchiveHidesSingleFolder(listing: seq<DirEntry>, archiveName: string)
    requires DirEntry(archiveName, false) in listing
    ensures RootAsWritten(listing) == []
  {
  }

  /** An archive with one top-level folder: as written, the root stays the
      temp directory; the corrected rule picks the folder. */
  lemma SingleFolderArchiveCounterexample()
    ensures RootAsWritten([DirEntry("project.zip", false), DirEntry("restaurant", true)]) == []
    ensures ProjectRoot([DirEntry("project.zip", false), DirEntry("restaurant", true)], "project.zip") == ["restaurant"]
  {
    var listing := [DirEntry("project.zip", false), DirEntry("restaurant", true)];
    assert Extracted(listing[..1], "project.zip") == [];
    assert listing[..2] == listing;
  }

  /** The listing without the saved archive: what the extraction produced. */
  function Extracted(listing: seq<DirEntry>, archiveName: string): (r: seq<DirEntry>)
    ensures forall e :: e in r <==> e in listing && e != DirEntry(archiveName, false)
    decreases |listing|
  {
    if listing == [] then []
    else
      var e := listing[|listing| - 1];
      Extracted(listing[..|listing| - 1], archiveName) + (if e == DirEntry(archiveName, false) then [] else [e])
  }

  /** Corrected project root: the single-folder rule applied to what was
      extracted, leaving out the saved archive. */
  function ProjectRoot(listing: seq<DirEntry>, archiveName: string): seq<string> {
    RootAsWritten(Extracted(listing, archiveName))
  }

  /** The corrected rule picks a folder exactly when the archive extracted to
      that one folder and nothing else. */
  lemma ProjectRootIff(listing: seq<DirEntry>, archiveName: string, name: string)
    ensures ProjectRoot(listing, archiveName) == [name] <==> Extracted(listing, archiveName) == [DirEntry(name, true)]
    ensures ProjectRoot(listing, archiveName) == [] || |ProjectRoot(listing, archiveName)| == 1
  {
  }

  lemma {:induction false} ExtractedWithoutArchive(listing: seq<DirEntry>, archiveName: string)
    requires DirEntry(archiveName, false) !in listing
    ensures Extracted(listing, archiveName) == listing
    decreases |listing|
  {
    if listing != [] {
      var init := listing[..|listing| - 1];
      assert DirEntry(archiveName, false) !in init;
      ExtractedWithoutArchive(init, archiveName);
    }
  }

  /** The correction changes nothing for a listing that does not hold the archive. */
  lemma ProjectRootAgreesWithoutArchive(listing: seq<DirEntry>, archiveName: string)
    requires DirEntry(archiveName, false) !in listing
    ensures ProjectRoot(listing, archiveName) == RootAsWritten(listing)
  {
    ExtractedWithoutArchive(listing, archiveName);
  }

  /** The handler indexes a different root than the code only for an upload
      whose saved archive sits in the listing beside exactly one extracted
      folder. */
  lemma RootsDifferOnlyOnSingleFolder(listing: seq<DirEntry>, archiveName: string)
    ensures ProjectRoot(listing, archiveName) != RootAsWritten(listing) ==>
      DirEntry(archiveName, false) in listing &&
      |Extracted(listing, archiveName)| == 1 && Extracted(listing, archiveName)[0].isDir
  {
    if DirEntry(archiveName, false) !in listing {
      ProjectRootAgreesWithoutArchive(listing, archiveName);
    }
  }

  /** What `os.walk(project_dir)` yields: the directories at or below `root`,
      in walk order, their paths taken relative to `root`. */
  function SubWalk(tree: seq<WalkDir>, root: seq<string>): (r: seq<WalkDir>)
    ensures |r| <= |tree|
    ensures forall w :: w in r <==> exists d :: d in tree && root <= d.dir && w == WalkDir(d.dir[|root|..], d.files)
    decreases |tree|
  {
    if tree == [] then []
    else
      var d := tree[|tree| - 1];
      assert tree == tree[..|tree| - 1] + [d];
      SubWalk(tree[..|tree| - 1], root) + (if root <= d.dir then [WalkDir(d.dir[|root|..], d.files)] else [])
  }

  /** Walking from the temp directory itself sees the whole tree unchanged. */
  lemma {:induction false} SubWalkFromTop(tree: seq<WalkDir>)
    ensures SubWalk(tree, []) == tree
    decreases |tree|
  {
    if tree != [] {
      SubWalkFromTop(tree[..|tree| - 1]);
      var d := tree[|tree| - 1];
      assert d.dir[0..] == d.dir;
    }
  }

  /** After a successful write of at least one file, the retrieval asks for
      at least one and at most 20 results. */
  lemma RetrievalRequestsResults(m: map<string, StoredDoc>, files: seq<CodeFile>)
    requires files != []
    ensures 1 <= ResultLimit(|Reindexed(m, files)|) <= 20
  {
    ReindexedCount(m, files);
  }

  /** `analyze_project` once the form fields are parsed: returns the response
      and the side-effect steps taken. */
  method AnalyzeProject(
    store: Collection, model: ChatModel, request: AnalysisRequest, upload: Upload, env: Collaborators)
    returns (response: Response, trace: seq<Step>)
    modifies store, model
    ensures Total(request.scoringPattern) != 100 ==>
      response == BadRequest(SumDetail) && trace == [] &&
      store.entries == old(store.entries) && model.prompts == old(model.prompts)
    ensures Total(request.scoringPattern) == 100 ==>
      var root := ProjectRoot(upload.listing, upload.archiveName);
      var files := Collect(SubWalk(upload.tree, root));
      var count := IndexedCount(files, env.storeFault);
      var indexed := StoreAfterIndex(old(store.entries), files, env.storeFault);
      var opening := [MakeTempDir, SaveArchive, ExtractArchive, Index(root, count)];
      (count == 0 ==>
        response == BadRequest(NoFilesDetail) && trace == opening &&
        store.entries == indexed && model.prompts == old(model.prompts)) &&
      (count > 0 ==>
        trace == opening + [RemoveTempDir, DropCollection] &&
        |model.prompts| == |old(model.prompts)| + (if env.retrievalFails then 0 else CallsMade(env.validationReply)) &&
        store.entries == (if env.dropFails then indexed else map[]) &&
        response == if env.retrievalFails then ServerError(RetrievalFailed)
                    else match Decide(env.validationReply, env.scoringReply)
                      case Success(outcome) => Ok(Message(count), outcome, request)
                      case Failure(fault) => ServerError(fault))
    ensures response.Ok? || response.ServerError? ==>
      |trace| >= 2 && trace[|trace| - 2..] == [RemoveTempDir, DropCollection]
    ensures response.BadRequest? ==> model.prompts == old(model.prompts)
  {
    if Total(request.scoringPattern) != 100 {
      return BadRequest(SumDetail), [];
    }
    var root := ProjectRoot(upload.listing, upload.archiveName);
    var count := SetupIndex(store, SubWalk(upload.tree, root), env.storeFault);
    trace := [MakeTempDir, SaveArchive, ExtractArchive, Index(root, count)];
    if count == 0 {
      // The HTTPException is re-raised as it is: no cleanup on this path.
      return BadRequest(NoFilesDetail), trace;
    }
    var analysis := AnalyzeWithAi(store, model, request, env.ranking, env.retrievalFails, env.validationReply, env.scoringReply);
    // Reached on success and, through the generic exception handler, on failure.
    trace := trace + [RemoveTempDir, DropCollection];
    store.Drop(env.dropFails);
    match analysis {
      case Success(outcome) => response := Ok(Message(count), outcome, request);
      case Failure(fault) => response := ServerError(fault);
    }
  }
}
