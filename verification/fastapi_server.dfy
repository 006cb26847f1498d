/** The endpoints of the FastAPI backend (main.py), over the shared routing
    and the post-processed model output. The model API's reply to a given
    error text is an input function. */
module FastApiServer {

  import opened Wrappers
  import opened Text
  import opened Store
  import opened Rag
  import opened GitHubUrl
  import Generation
  import opened Router

  /** The file name endings `/upload-logs` accepts. */
  const AcceptedExtensions: seq<string> := [".log", ".txt"]

  /** The 400 detail for any other file name. */
  const InvalidFileMessage: string := "Invalid file type. Please upload .log or .txt files."

  /** The recommendations main.py computes for a text, given how the API
      answers it and how the reply is parsed. */
  function Recommender(replyTo: string -> Generation.Reply, parse: string -> Option<seq<Generation.Item>>)
    : string -> seq<Solution>
  {
    t => Generation.Recommend(replyTo(t), parse)
  }

  /** `search_logs`: the stored hit with source "rag", else the model's
      (post-processed or fallback) solutions with source "claude". */
  function SearchLogs(db: seq<Entry>, logContent: string, replyTo: string -> Generation.Reply,
                      parse: string -> Option<seq<Generation.Item>>): (r: Routed<Solution>)
    ensures r.Retrieved? <==> SearchRag(db, logContent).Some?
    ensures r.Retrieved? ==> Some(r.hit) == SearchRag(db, logContent)
    ensures r.Retrieved? ==> r.hit.confidence == RetrievedConfidence
    ensures r.Generated? ==> r.items == Generation.Recommend(replyTo(logContent), parse)
    ensures r.Generated? ==> |r.items| <= Generation.MaxSolutions
    ensures r.Generated? ==> forall i :: 0 <= i < |r.items| ==> r.items[i].id == i
  {
    var recommend := Recommender(replyTo, parse);
    assert recommend(logContent) == Generation.Recommend(replyTo(logContent), parse);
    Route(db, logContent, recommend)
  }

  /** `upload_logs`: the name must end in `.log` or `.txt`, compared with
      case; the content is then routed like `search_logs`. */
  function UploadLogs(db: seq<Entry>, filename: string, content: string,
                      replyTo: string -> Generation.Reply,
                      parse: string -> Option<seq<Generation.Item>>): (r: Result<Routed<Solution>, HttpError>)
    ensures r.Success? <==> EndsWith(filename, ".log") || EndsWith(filename, ".txt")
    ensures r.Failure? ==> r.error == HttpError(400, InvalidFileMessage)
    ensures r.Success? ==> r.value == SearchLogs(db, content, replyTo, parse)
  {
    if EndsWith(filename, AcceptedExtensions[0]) || EndsWith(filename, AcceptedExtensions[1]) then
      Success(SearchLogs(db, content, replyTo, parse))
    else
      Failure(HttpError(400, InvalidFileMessage))
  }

  /** The extension test is case-sensitive: `.LOG` is refused. */
  lemma UpperCaseExtensionRefused(db: seq<Entry>, stem: string, content: string,
                                  replyTo: string -> Generation.Reply,
                                  parse: string -> Option<seq<Generation.Item>>)
    ensures UploadLogs(db, stem + ".LOG", content, replyTo, parse).Failure?
    ensures UploadLogs(db, stem + ".log", content, replyTo, parse).Success?
  {
    var up, low := stem + ".LOG", stem + ".log";
    assert up[|up| - 4..] == ".LOG";
    assert low == stem + ".log";
  }

  /** `analyze_github`: the shared per-pipeline routing with the model's
      recommendations; a malformed URL is a 400. */
  method AnalyzeGithub(db: seq<Entry>, url: string, pipelines: seq<Pipeline>,
                       replyTo: string -> Generation.Reply,
                       parse: string -> Option<seq<Generation.Item>>)
    returns (r: Result<seq<PipelineResult<Solution>>, HttpError>)
    ensures r.Failure? <==> NoMatch(url)
    ensures r.Failure? ==> r.error == HttpError(400, InvalidUrlMessage)
    ensures r.Success? ==> |r.value| == |pipelines|
    ensures r.Success? ==> forall i :: 0 <= i < |pipelines| ==>
      r.value[i] == PipelineResult(pipelines[i], SearchLogs(db, ErrorText(pipelines[i]), replyTo, parse))
  {
    r := Router.AnalyzeGithub(db, url, pipelines, Recommender(replyTo, parse));
  }

  /** `mark_solution`: the id is the list length before the append. */
  function MarkSolution(db: seq<Entry>, errorText: string, solutionText: string): (r: (seq<Entry>, int))
    requires IdsArePositions(db)
    ensures IdsArePositions(r.0) && r.1 == |db|
    ensures r.0 == db + [Entry(r.1, errorText, solutionText)]
    ensures SearchRag(r.0, errorText).Some?
  {
    MarkedErrorIsFound(Store(db, |db|), errorText, solutionText);
    MarkByLength(db, errorText, solutionText)
  }
}
