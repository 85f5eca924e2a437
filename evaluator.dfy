/** `analyze_with_ai`: retrieve code context from the store, ask the language
    model for a pass/fail validation, and only on a pass ask it for a scored
    evaluation. Each model reply is an oracle input: a parsed JSON object
    whose keys may be missing, or None when the call or `json.loads` fails. */
module Evaluator {
  import opened Wrappers
  import opened Text
  import opened Store
  import opened Rubric

  datatype AnalysisRequest = AnalysisRequest(
    projectAbout: string,
    technology: string,
    problemStatement: string,
    scoringPattern: seq<ScoringItem>)

  /** Phase-1 reply: the keys `pass`, `reasons`, `error_locations`. */
  datatype ValidationReply = ValidationReply(
    pass: Option<bool>,
    reasons: Option<seq<string>>,
    errorLocations: Option<seq<string>>)

  datatype ComponentEvaluation = ComponentEvaluation(
    component: string, score: int, feedback: string, suggestions: string)

  /** Phase-2 reply: the keys `score`, `component_evaluations`, `overall_feedback`. */
  datatype ScoringReply = ScoringReply(
    score: Option<int>,
    componentEvaluations: Option<seq<ComponentEvaluation>>,
    overallFeedback: Option<string>)

  /** The analysis returned to the caller: a rejection by the validation gate
      or a scored evaluation. */
  datatype Outcome =
    | Rejected(reasons: seq<string>, errorLocations: seq<string>, score: int)
    | Evaluated(score: int, componentEvaluations: seq<ComponentEvaluation>, overallFeedback: string)

  /** Why the analysis raised: setting up the clients or retrieving the
      context failed before any model call, a reply is not a JSON object (or
      the call failed), or a `KeyError` on a missing key. */
  datatype Fault = RetrievalFailed | MalformedReply | MissingKey(key: string)

  /** What a model call is asked: the inputs each prompt embeds. */
  datatype Prompt =
    | ValidationPrompt(projectAbout: string, technology: string, context: string)
    | ScoringPrompt(problemStatement: string, scoringSection: string, context: string)

  /** The language-model client; `prompts` logs every call made, so its
      length is the number of calls. */
  class ChatModel {
    var prompts: seq<Prompt>

    constructor ()
      ensures prompts == []
    {
      prompts := [];
    }

    /** One chat completion; `reply` is what the model answers. */
    method Complete<R>(prompt: Prompt, reply: R) returns (r: R)
      modifies this
      ensures prompts == old(prompts) + [prompt]
      ensures r == reply
    {
      prompts := prompts + [prompt];
      r := reply;
    }
  }

  /** `min(20, count)`: how many results the retrieval asks for. */
  function ResultLimit(count: nat): (n: nat)
    ensures n <= 20 && n <= count
    ensures n == 20 || n == count
  {
    if count < 20 then count else 20
  }

  /** One retrieved file in the context: a boundary marker with its stored path, then its document. */
  function Section(d: StoredDoc): string {
    "=== FILE: " + d.metadata.path + " ===\n" + d.document
  }

  function Sections(results: seq<StoredDoc>): seq<string> {
    seq(|results|, i requires 0 <= i < |results| => Section(results[i]))
  }

  /** The code context: the sections of all results, in result order, separated by a blank line. */
  function Context(results: seq<StoredDoc>): string {
    Join("\n\n", Sections(results))
  }

  /** Each result appears in the context as its own marked section, after the
      sections of the results ranked before it and their separators. */
  lemma ContextSectionAt(results: seq<StoredDoc>, k: nat)
    requires k < |results|
    ensures var off := |Context(results[..k])| + (if k == 0 then 0 else 2);
      off + |Section(results[k])| <= |Context(results)| &&
      Context(results)[off..off + |Section(results[k])|] == Section(results[k])
  {
    var sections := Sections(results);
    assert sections[..k] == Sections(results[..k]);
    assert sections[k] == Section(results[k]);
    JoinPieceAt("\n\n", sections, k);
  }

  /** The validation gate: a Rejected outcome, no outcome yet (the gate
      passed), or the KeyError raised while reading the reply. */
  function Validate(reply: Option<ValidationReply>): Result<Option<Outcome>, Fault> {
    match reply
    case None => Failure(MalformedReply)
    case Some(v) =>
      match v.pass
      case None => Failure(MissingKey("pass"))
      case Some(true) => Success(None)
      case Some(false) =>
        match v.reasons
        case None => Failure(MissingKey("reasons"))
        case Some(reasons) => Success(Some(Rejected(reasons, v.errorLocations.GetOr([]), 0)))
  }

  /** The scored evaluation read from the phase-2 reply, key by key in the order the code reads them. */
  function Score(reply: Option<ScoringReply>): Result<Outcome, Fault> {
    match reply
    case None => Failure(MalformedReply)
    case Some(s) =>
      if s.score.None? then Failure(MissingKey("score"))
      else if s.componentEvaluations.None? then Failure(MissingKey("component_evaluations"))
      else if s.overallFeedback.None? then Failure(MissingKey("overall_feedback"))
      else Success(Evaluated(s.score.value, s.componentEvaluations.value, s.overallFeedback.value))
  }

  predicate Passes(reply: Option<ValidationReply>) {
    reply.Some? && reply.value.pass == Some(true)
  }

  /** The result of the two phases. */
  function Decide(validation: Option<ValidationReply>, scoring: Option<ScoringReply>): Result<Outcome, Fault> {
    match Validate(validation)
    case Failure(e) => Failure(e)
    case Success(Some(rejection)) => Success(rejection)
    case Success(None) => Score(scoring)
  }

  /** Model calls made: the second only when the gate passed. */
  function CallsMade(validation: Option<ValidationReply>): nat {
    if Passes(validation) then 2 else 1
  }

  /** A failing verdict ends the analysis as a rejection with score 0,
      carrying the verdict's reasons and error locations (none when absent),
      after one model call, whatever the second reply would have been. */
  lemma FailingVerdictRejects(validation: Option<ValidationReply>, scoring: Option<ScoringReply>)
    requires validation.Some? && validation.value.pass == Some(false)
    requires validation.value.reasons.Some?
    ensures Decide(validation, scoring) ==
      Success(Rejected(validation.value.reasons.value, validation.value.errorLocations.GetOr([]), 0))
    ensures CallsMade(validation) == 1
  {
  }

  /** Every rejection comes from a failing verdict, and its score is 0. */
  lemma RejectionOnlyFromFailingVerdict(validation: Option<ValidationReply>, scoring: Option<ScoringReply>)
    requires Decide(validation, scoring).Success? && Decide(validation, scoring).value.Rejected?
    ensures validation.Some? && validation.value.pass == Some(false)
    ensures Decide(validation, scoring).value.score == 0
    ensures CallsMade(validation) == 1
  {
  }

  /** A passing verdict always proceeds to the second call, and the outcome
      is exactly what the phase-2 reply yields. */
  lemma PassingVerdictEvaluates(validation: Option<ValidationReply>, scoring: Option<ScoringReply>)
    requires Passes(validation)
    ensures Decide(validation, scoring) == Score(scoring)
    ensures CallsMade(validation) == 2
    ensures (scoring.Some? && scoring.value.score.Some? && scoring.value.componentEvaluations.Some? &&
             scoring.value.overallFeedback.Some?) ==>
      Decide(validation, scoring) == Success(Evaluated(scoring.value.score.value,
        scoring.value.componentEvaluations.value, scoring.value.overallFeedback.value))
  {
  }

  /** An evaluated outcome needs a passing verdict and carries phase 2's score. */
  lemma EvaluationOnlyAfterPass(validation: Option<ValidationReply>, scoring: Option<ScoringReply>)
    requires Decide(validation, scoring).Success? && Decide(validation, scoring).value.Evaluated?
    ensures Passes(validation) && CallsMade(validation) == 2
    ensures scoring.Some? && scoring.value.score == Some(Decide(validation, scoring).value.score)
  {
  }

  /** When the gate does not pass, the outcome does not depend on the second reply. */
  lemma SecondReplyIrrelevantUnlessPassed(validation: Option<ValidationReply>, s1: Option<ScoringReply>, s2: Option<ScoringReply>)
    requires !Passes(validation)
    ensures Decide(validation, s1) == Decide(validation, s2)
  {
  }

  /** The retrieval and both phases of `analyze_with_ai`. The store is only
      read. `retrievalFails` says whether creating the clients, opening the
      collection, `count` or `query` raises. */
  method AnalyzeWithAi(
    store: Collection, model: ChatModel, request: AnalysisRequest, ranking: seq<string>, retrievalFails: bool,
    validationReply: Option<ValidationReply>, scoringReply: Option<ScoringReply>)
    returns (result: Result<Outcome, Fault>)
    modifies model
    ensures retrievalFails ==> result == Failure(RetrievalFailed) && model.prompts == old(model.prompts)
    ensures !retrievalFails ==> result == Decide(validationReply, scoringReply)
    ensures !retrievalFails ==> var context := Context(store.Query(ResultLimit(store.Count()), ranking));
      model.prompts == old(model.prompts) + [ValidationPrompt(request.projectAbout, request.technology, context)] +
        if Passes(validationReply)
        then [ScoringPrompt(request.problemStatement, ScoringSection(request.scoringPattern), context)]
        else []
    ensures |model.prompts| == |old(model.prompts)| + (if retrievalFails then 0 else CallsMade(validationReply))
  {
    if retrievalFails {
      return Failure(RetrievalFailed);
    }
    var results := store.Query(ResultLimit(store.Count()), ranking);
    var context := Context(results);
    var reply := model.Complete(ValidationPrompt(request.projectAbout, request.technology, context), validationReply);
    if reply.None? {
      return Failure(MalformedReply);
    }
    var validation := reply.value;
    if validation.pass.None? {
      return Failure(MissingKey("pass"));
    }
    if !validation.pass.value {
      if validation.reasons.None? {
        return Failure(MissingKey("reasons"));
      }
      return Success(Rejected(validation.reasons.value, validation.errorLocations.GetOr([]), 0));
    }
    var scoringSection := RenderScoringSection(request.scoringPattern);
    var evaluation := model.Complete(ScoringPrompt(request.problemStatement, scoringSection, context), scoringReply);
    if evaluation.None? {
      return Failure(MalformedReply);
    }
    var s := evaluation.value;
    if s.score.None? {
      return Failure(MissingKey("score"));
    }
    if s.componentEvaluations.None? {
      return Failure(MissingKey("component_evaluations"));
    }
    if s.overallFeedback.None? {
      return Failure(MissingKey("overall_feedback"));
    }
    return Success(Evaluated(s.score.value, s.componentEvaluations.value, s.overallFeedback.value));
  }
}
