# Project evaluation pipeline — a Dafny model

This project models the request pipeline of an AI project-evaluation service.
The service takes an uploaded project archive and a scoring rubric. It indexes
the project's source files into a vector-store collection and retrieves code
context from that collection. It then asks a language model two questions in
turn: a strict pass/fail validation, and, only when that passes, a scored
evaluation against the rubric.

The three collaborators are inputs of the model:

- The vector store is a `Collection` class over a map from id to stored
  document. Its similarity ranking is an input sequence of ids.
  `Add` rejects a batch with a repeated id and keeps the old entry for an id
  that is already present. The pipeline deletes the batch's ids first, so in
  the pipeline every id of a successful batch is new.
- The language model is a `ChatModel` class that logs every prompt, so the
  number of calls can be stated. Each reply is an oracle value: a parsed JSON
  record whose keys may be missing, or `None` when the call or `json.loads`
  fails.
- The file system is given as data. The directory walk is a sequence of
  directories with their files (a file's content is `None` when reading or
  UTF-8 decoding fails). The temp-directory listing is a sequence of entries
  with a directory flag.

Modules, one per file:

- `Text`: ASCII lower-casing, `endswith`, decimal rendering of integers with
  its inverse, and `join`/concatenation with lemmas placing each piece.
- `Extraction`: the extension filter and the nested collection loops of
  `setup_chromadb`.
- `Store`: the collection, with `Delete`, `Add`, `Count`, `Query` and `Drop`.
- `Indexing`: documents, metadata and `id_<i>` ids, the store update, and
  `SetupIndex` (`setup_chromadb`).
- `Rubric`: the rubric total and `generate_scoring_prompt_section`.
- `Evaluator`: the retrieval size, the context join and the two-phase decision
  (`analyze_with_ai`).
- `Service`: `analyze_project`, covering the rubric-sum check, the project
  root, the abort on zero files and the cleanup.

Three places where what the code does differs from what its handler and
prompts suggest; the model follows the code:

- Cleanup runs on the success path and in the generic exception handler, but
  an `HTTPException` is re-raised as it is (main.py:298-299). So after the
  400 for "no relevant code files", neither the temp directory nor the
  collection is removed. `Service.AnalyzeProject` states exactly this.
- Retrieval has no check for an empty collection. The model shows instead
  that retrieval is reached only after at least one document was written
  (`Service.RetrievalRequestsResults`).
- The scoring prompt asks for one evaluation per rubric component and a score
  out of 100. The code checks neither on the reply, and the model does not
  claim either.

## Model

| member | source | states |
|---|---|---|
| `Text.ParseNatToString` | main.py:82 | the decimal numeral written for an id index reads back as that index |
| `Text.NatToStringInjective` | main.py:82 | different indices render as different numerals |
| `Text.IntToStringRoundTrip` | main.py:104 | a `max_score` rendered by the f-string, sign included, reads back as the same integer |
| `Extraction.EndsWithAnyIff` | main.py:61 | `endswith` on a tuple holds iff the name ends with some suffix of the tuple |
| `Extraction.IsSupportedIff` | main.py:56-61 | the code's test `name.lower().endswith(supported_extensions)` holds iff the lower-cased name ends with one of the nine extensions |
| `Extraction.IsSupportedIgnoresCase` | main.py:61 | the filter gives the same answer for a name and its lower-cased form |
| `Extraction.CollectCodeFiles` | main.py:55-74 | the nested loops over the walk collect exactly `Collect(walk)`; unreadable files are skipped without ending the walk |
| `Extraction.CollectDirMembership` | main.py:60-74 | within one directory, a code file is collected iff some listed file passed the filter, was readable and gives that path and content |
| `Extraction.CollectMembership` | main.py:59-74 | a code file is collected iff some walked file passed the filter, was readable, and gives that relative path and content |
| `Extraction.CollectAppend` | main.py:59-60 | collection follows walk order: the files of an earlier part of the walk come first |
| `Store.InsertedFresh` | main.py:89-93 | adding fresh, distinct ids adds exactly those keys, each with its own document and metadata, and keeps every earlier entry |
| `Store.Collection.constructor` | main.py:50-53 | a newly created collection is empty |
| `Store.Collection.Delete` | main.py:86 | deleting removes exactly the given ids, or changes nothing when the store raises |
| `Store.Collection.Add` | main.py:89-93 | adding succeeds iff the store does not raise, the three lists match in length and the ids are distinct, and then inserts the batch |
| `Store.Collection.Count` | main.py:116 | the count is zero exactly when the collection holds no document |
| `Store.Collection.Query` | main.py:114-116 | a query returns at most `n` results, each one a document held in the collection |
| `Store.Collection.Drop` | main.py:212-219 | dropping the collection empties it; a failure leaves it as it was |
| `Indexing.IdOfInjective` | main.py:82 | `id_i` equals `id_j` only when `i == j` |
| `Indexing.IdsDistinct` | main.py:82 | the ids of one batch are pairwise distinct |
| `Indexing.DocumentRoundTrip` | main.py:80-81 | a document begins with the metadata path and a newline, and the rest is exactly the file content |
| `Indexing.ReindexedSpec` | main.py:84-93 | after delete-then-add, `id_k` maps to the k-th file's document and path for every collected file, and every other key is unchanged |
| `Indexing.StaleIdsSurvive` | main.py:82-93 | an `id_k` with k at least the new file count, left from an earlier larger run, keeps its old document |
| `Indexing.ReindexIdempotent` | main.py:84-93 | indexing the same files twice gives the same collection as indexing them once |
| `Indexing.ReindexedCount` | main.py:89-95 | after a successful write the collection holds at least as many documents as were indexed |
| `Indexing.SetupIndex` | main.py:47-98 | returns the file count, or 0 when nothing was collected or delete or add raised; the collection is untouched, stripped of the batch ids, or reindexed accordingly |
| `Rubric.Total` | main.py:241 | the rubric total is the sum of the `max_score` values; when none is negative, no item's score exceeds it |
| `Rubric.TotalAppend` | main.py:241 | the total of a rubric is the totals of any two consecutive parts of it added |
| `Rubric.RenderScoringSection` | main.py:100-106 | the `+=` loop builds exactly the header, one line per rubric item in order, and the trailing instruction |
| `Rubric.ScoringSectionFrame` | main.py:102-105 | the section starts with the "Scoring Breakdown (Total must sum to 100):" header and ends with the deduction instruction |
| `Rubric.ScoringSectionLineAt` | main.py:103-104 | the k-th item's line `- <component>: <max_score> points` follows the header and the lines of the items before it |
| `Rubric.ItemLineScoreRoundTrip` | main.py:104 | the points figure in an item's line reads back as its `max_score` |
| `Evaluator.ResultLimit` | main.py:116 | the requested result count is at most 20 and at most the collection size, and equals one of them |
| `Evaluator.ContextSectionAt` | main.py:118-121 | each result appears in the context as `=== FILE: <path> ===` plus its document, in result order, after the earlier sections and their blank-line separators |
| `Evaluator.ChatModel.constructor` | main.py:110 | a new client has made no calls |
| `Evaluator.ChatModel.Complete` | main.py:147-152 | a call appends its prompt to the call log and returns the model's reply |
| `Evaluator.FailingVerdictRejects` | main.py:154-162 | a failing verdict gives `rejected` with the verdict's reasons, its error locations (empty when absent) and score 0, after a single call |
| `Evaluator.RejectionOnlyFromFailingVerdict` | main.py:156-162 | every rejection comes from a failing verdict, has score 0 and costs one call |
| `Evaluator.PassingVerdictEvaluates` | main.py:164-210 | a passing verdict always leads to the second call, and the outcome is `evaluated` with phase 2's score, component evaluations and overall feedback |
| `Evaluator.EvaluationOnlyAfterPass` | main.py:196-210 | an evaluated outcome implies a passing verdict, two calls, and phase 2's score |
| `Evaluator.SecondReplyIrrelevantUnlessPassed` | main.py:156-162 | when the gate does not pass, the outcome does not depend on the second reply |
| `Evaluator.AnalyzeWithAi` | main.py:108-210 | a failure while creating the clients or retrieving ends in a fault with no model call; otherwise the outcome is the two-phase decision, the validation prompt carries the retrieved context, and a scoring prompt with the rendered rubric and the same context is issued iff the verdict passed |
| `Service.RootAsWritten` | main.py:267-272 | the code's root rule: a folder is chosen iff the listing holds exactly one entry and it is a directory, and then it is that entry |
| `Service.ArchiveHidesSingleFolder` | main.py:257-272 | as written, the project root is always the temp directory, because the saved archive is itself in the listed directory |
| `Service.SingleFolderArchiveCounterexample` | main.py:267-272 | an archive extracting to one folder keeps the temp directory as root as written; the corrected rule picks the folder |
| `Service.Extracted` | main.py:257-268 | the extracted entries are exactly the listing's entries other than the saved archive file |
| `Service.ProjectRootIff` | main.py:270-272 | the corrected root is a folder exactly when the extraction produced that one folder and nothing else |
| `Service.RootsDifferOnlyOnSingleFolder` | main.py:257-272 | the corrected root differs from the code's only when the saved archive is listed beside exactly one extracted folder |
| `Service.ProjectRootAgreesWithoutArchive` | main.py:267-272 | the correction changes nothing when the listing does not hold the archive |
| `Service.SubWalk` | main.py:59 | walking from the project root yields exactly the directories at or below it, with paths relative to it, and no more directories than the whole tree |
| `Service.SubWalkFromTop` | main.py:267-275 | walking from the temp directory sees the whole extracted tree |
| `Service.RetrievalRequestsResults` | main.py:114-116 | after a successful write of at least one file, retrieval asks for between 1 and 20 results |
| `Service.AnalyzeProject` | main.py:221-305 | a rubric total other than 100 is a 400 before any file-system, store or model work; zero indexed files is a 400 with no model call and no cleanup; otherwise the two-phase outcome, or a 500 (with no model call when retrieval fails), each followed by temp-directory removal and collection drop |

## Findings

| source | as written | input that shows it | evidently intended | confidence | as-written member | corrected member |
|---|---|---|---|---|---|---|
| main.py:257-272 | the archive is saved into `temp_project`, which is then listed, so the listing holds the archive file beside the extracted entries and the single-folder rule never fires for an archive with one top-level folder | archive `project.zip` whose only top-level entry is the folder `restaurant/`: the listing is `["project.zip", "restaurant"]`, the root stays `temp_project`, and every indexed path gets the `restaurant/` prefix | the single-folder rule applies to what the archive extracted, leaving the saved archive out | high, not executed | `Service.RootAsWritten`, shown by `Service.SingleFolderArchiveCounterexample` | `Service.ProjectRoot`, proved by `Service.ProjectRootIff` |

`Service.AnalyzeProject` uses the corrected `Service.ProjectRoot`.

## Left out

- HTTP routing, form fields, `JSONResponse` framing and the `uvicorn` entry point (main.py:221-228, 286-296, 307-309) are plumbing. The response is a datatype.
- JSON parsing and pydantic validation of the rubric (main.py:232-238) are library calls. The rubric arrives parsed, and their 400 responses are not modelled.
- Saving and extracting the archive, `os.walk`, `os.listdir`, `open` with UTF-8 decoding, and `shutil.rmtree` are I/O. The walk and the listing are inputs. The steps appear as entries of the returned trace, and their own failures (a bad zip, say) are not modelled.
- `os.path.relpath` is modelled as joining path components with `/`. Separator normalisation is not modelled.
- `str.lower()` is modelled on ASCII letters only. Unicode case mapping is not modelled.
- Embedding computation and similarity ranking are foreign calls. The ranking is an input sequence of ids.
- Exceptions from `get_or_create_collection` in `setup_chromadb` (main.py:50-53) are not modelled. The store failures that are modelled are `delete` and `add` while indexing (caught, giving 0 files), `delete_collection` during cleanup (caught and logged), and one retrieval fault for `get_openai_client`, `get_collection`, `count` or `query` raising (main.py:110-116), which the generic handler turns into a 500.
- The prompt prose, the model name and the temperatures 0.0 and 0.1 have no logic attached. Prompts are records of the inputs they embed.
- JSON values of the wrong type in a model reply (a string for `pass`, judged by Python truthiness) are not modelled. `pass` is a boolean.
- `Service.AnalyzeProject` indexes the root chosen by the corrected `Service.ProjectRoot`, not the code's `Service.RootAsWritten`. For an archive whose only top-level entry is a folder, the code indexes from the temp directory and every stored path carries that folder's name as a prefix; the model indexes from the folder. `Service.RootsDifferOnlyOnSingleFolder` proves this is the only kind of upload where the two differ.
- `Service.AnalyzeProject`: the 500 detail `str(e)` is carried as the `Fault` value (failed retrieval, malformed reply or missing key), not rendered as text.
- Logging is not modelled.
- Concurrent requests sharing the `code_analysis` collection and the `temp_project` directory are out of scope. So are leftovers of an earlier request that skipped cleanup.
- `chroma_test.py` and `test.py` are manual scripts against live services and have no logic to model.
