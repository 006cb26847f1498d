/** The routing both backends share: look in the solution store first;
    on a hit answer with that one solution and source "rag", otherwise with
    the recommendations and source "claude". `/analyze-github` does this
    once per failed pipeline. */
module Router {

  import opened Wrappers
  import opened Text
  import opened Store
  import opened Rag
  import opened GitHubUrl

  /** The `source` field of a response. */
  datatype Source = RagSource | ClaudeSource {
    function Label(): string {
      match this
      case RagSource => "rag"
      case ClaudeSource => "claude"
    }
  }

  /** A routed answer: the retrieved solution, or the recommendations
      (of type `T`, which differs between the two backends). */
  datatype Routed<T> = Retrieved(hit: Solution) | Generated(items: seq<T>) {
    function Source(): Source {
      if Retrieved? then RagSource else ClaudeSource
    }
    /** Number of solutions in the response. */
    function Count(): nat {
      if Retrieved? then 1 else |items|
    }
  }

  /** `search_logs` (and the body of each `/analyze-github` iteration):
      retrieval first, recommendations only on a miss. */
  function Route<T>(db: seq<Entry>, query: string, recommend: string -> seq<T>): (r: Routed<T>)
    ensures r.Source() == RagSource <==> exists k :: 0 <= k < |db| && Hits(db[k], query)
    ensures r.Retrieved? ==> Some(r.hit) == SearchRag(db, query) && r.Count() == 1
    ensures r.Generated? ==> r.items == recommend(query)
  {
    match SearchRag(db, query)
    case Some(s) => Retrieved(s)
    case None => Generated(recommend(query))
  }

  /** A failed workflow run as the pipeline inspector reports it. */
  datatype Pipeline = Pipeline(workflowName: string, runId: string, failureReason: string, logs: string)

  /** The text searched for a pipeline: `f"{failure_reason}\n{logs}"`. */
  function ErrorText(p: Pipeline): (t: string)
    ensures |t| == |p.failureReason| + 1 + |p.logs|
    ensures t[..|p.failureReason|] == p.failureReason && t[|p.failureReason|] == '\n'
    ensures t[|p.failureReason| + 1..] == p.logs
  {
    p.failureReason + "\n" + p.logs
  }

  /** One element of `results`: the pipeline and its routed answer. */
  datatype PipelineResult<T> = PipelineResult(pipeline: Pipeline, answer: Routed<T>)

  /** The `for pipeline in failed_pipelines` loop: one result per pipeline,
      in pipeline order, each routed on its own error text. */
  method AnalyzePipelines<T>(db: seq<Entry>, pipelines: seq<Pipeline>, recommend: string -> seq<T>)
    returns (results: seq<PipelineResult<T>>)
    ensures |results| == |pipelines|
    ensures forall i :: 0 <= i < |pipelines| ==> results[i].pipeline == pipelines[i]
    ensures forall i :: 0 <= i < |pipelines| ==>
      results[i].answer == Route(db, ErrorText(pipelines[i]), recommend)
  {
    results := [];
    var i := 0;
    while i < |pipelines|
      invariant 0 <= i <= |pipelines|
      invariant |results| == i
      invariant forall j :: 0 <= j < i ==> results[j].pipeline == pipelines[j]
      invariant forall j :: 0 <= j < i ==>
        results[j].answer == Route(db, ErrorText(pipelines[j]), recommend)
    {
      var pipeline := pipelines[i];
      var answer := Route(db, ErrorText(pipeline), recommend);
      results := results + [PipelineResult(pipeline, answer)];
      i := i + 1;
    }
  }

  /** An HTTP error response. */
  datatype HttpError = HttpError(status: int, detail: string)

  /** `/analyze-github`: a URL without `github.com/<owner>/<repo>` is a 400
      carrying the `ValueError` message; otherwise every pipeline the
      inspector returned is analysed. The inspector's answer is the input
      `pipelines`. Only the success of the extraction matters here, and on
      that the code as written and the `.git` correction agree. */
  method AnalyzeGithub<T>(db: seq<Entry>, url: string, pipelines: seq<Pipeline>, recommend: string -> seq<T>)
    returns (r: Result<seq<PipelineResult<T>>, HttpError>)
    ensures r.Failure? <==> NoMatch(url)
    ensures r.Failure? <==> ExtractRepoInfoAsWritten(url).Failure?
    ensures r.Failure? ==> r.error == HttpError(400, InvalidUrlMessage)
    ensures r.Success? ==> |r.value| == |pipelines|
    ensures r.Success? ==> forall i :: 0 <= i < |pipelines| ==>
      r.value[i] == PipelineResult(pipelines[i], Route(db, ErrorText(pipelines[i]), recommend))
  {
    match ExtractRepoInfo(url)
    case Failure(message) =>
      r := Failure(HttpError(400, message));
    case Success(_) =>
      var results := AnalyzePipelines(db, pipelines, recommend);
      r := Success(results);
  }

  /** An empty store sends every request to the recommendations. */
  lemma EmptyStoreGenerates<T>(query: string, recommend: string -> seq<T>)
    ensures Route([], query, recommend) == Generated(recommend(query))
  {
  }

  /** A pipeline whose error text was marked before is answered from the
      store. */
  lemma {:induction false} MarkedPipelineRetrieved<T>(st: Store, p: Pipeline, solutionText: string,
                                                     recommend: string -> seq<T>)
    ensures Route(MarkByCounter(st, Some(ErrorText(p)), Some(solutionText)).store.entries,
                  ErrorText(p), recommend).Retrieved?
  {
    MarkedErrorIsFound(st, ErrorText(p), solutionText);
  }

  /** Routing is decided by the search alone: the same query gets the same
      source whatever the recommendation function. */
  lemma SourceIndependentOfRecommender<T, U>(db: seq<Entry>, query: string,
                                             f: string -> seq<T>, g: string -> seq<U>)
    ensures Route(db, query, f).Source() == Route(db, query, g).Source()
  {
  }
}
