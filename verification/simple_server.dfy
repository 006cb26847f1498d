/** The endpoints of the stdlib HTTP server, over the shared routing and
    the keyword recommendations. */
module SimpleServer {

  import opened Wrappers
  import opened Text
  import opened Store
  import opened Rag
  import opened GitHubUrl
  import Keyword
  import opened Router

  /** The fixed text `/upload-logs` asks recommendations for. */
  const UploadedText: string := "uploaded log file"

  /** `/search-logs`: `log_content` defaults to `""` when the body lacks
      it, and the empty query hits the oldest record of a non-empty store. */
  function SearchLogs(db: seq<Entry>, logContent: Option<string>): (r: Routed<Keyword.Advice>)
    ensures r.Retrieved? <==> exists k :: 0 <= k < |db| && Hits(db[k], logContent.GetOr(""))
    ensures r.Retrieved? ==> Some(r.hit) == SearchRag(db, logContent.GetOr(""))
    ensures r.Generated? ==> r.items == Keyword.Recommend(logContent.GetOr("")) && |r.items| == 3
    ensures logContent.None? && |db| > 0 ==> r == Retrieved(FromEntry(db[0]))
  {
    EmptyQueryHitsFirst(db);
    Route(db, logContent.GetOr(""), Keyword.Recommend)
  }

  /** A needle with a character the haystack lacks is not contained in it. */
  lemma MissingCharNotContained(hay: string, needle: string, c: char)
    requires c in needle && c !in hay
    ensures !Contains(hay, needle)
  {
  
  }

  /** `/upload-logs` parses nothing: the fixed text has no keyword, so the
      answer is always the first three table entries with source "claude". */
  function UploadLogs(): (r: Routed<Keyword.Advice>)
    ensures r == Generated(Keyword.Table[..3])
    ensures r.Source().Label() == "claude"
  {
    UploadedTextHasNoKeyword();
    Keyword.NoKeywordFirstThree(UploadedText);
    Generated(Keyword.Recommend(UploadedText))
  }

  lemma UploadedTextIsLowerCase()
    ensures Lower(UploadedText) == UploadedText
  {
  }

  /** None of the four keywords occurs in the fixed upload text. */
  lemma UploadedTextHasNoKeyword()
    ensures Keyword.NoKeyword(UploadedText)
  {
    UploadedTextIsLowerCase();
    LacksChar('n');
    LacksChar('k');
    LacksChar('r');
    MissingCharNotContained(UploadedText, "npm", 'n');
    MissingCharNotContained(UploadedText, "node", 'n');
    MissingCharNotContained(UploadedText, "docker", 'k');
    MissingCharNotContained(UploadedText, "permission", 'r');
  }

  lemma LacksChar(c: char)
    requires c == 'n' || c == 'k' || c == 'r'
    ensures c !in UploadedText
  {
  }

  /** `/analyze-github` with the keyword recommendations: each pipeline is
      answered by the store's first hit or, failing that, by three keyword
      recommendations. */
  method AnalyzeGithub(db: seq<Entry>, url: string, pipelines: seq<Pipeline>)
    returns (r: Result<seq<PipelineResult<Keyword.Advice>>, HttpError>)
    ensures r.Failure? <==> NoMatch(url)
    ensures r.Failure? ==> r.error.status == 400
    ensures r.Success? ==> |r.value| == |pipelines|
    ensures r.Success? ==> forall i :: 0 <= i < |pipelines| ==>
      && r.value[i].pipeline == pipelines[i]
      && (r.value[i].answer.Retrieved? <==> SearchRag(db, ErrorText(pipelines[i])).Some?)
      && (r.value[i].answer.Generated? ==> |r.value[i].answer.items| == 3)
      && r.value[i].answer == Route(db, ErrorText(pipelines[i]), Keyword.Recommend)
  {
    r := Router.AnalyzeGithub(db, url, pipelines, Keyword.Recommend);
  }

  /** `/mark-solution` on the server state; absent fields are stored as
      `""`. Returns the new state and the `entry_id` reported. */
  function MarkSolution(st: Store, errorText: Option<string>, solutionText: Option<string>): (m: Marked)
    requires Valid(st)
    ensures Valid(m.store) && m.entryId == |st.entries|
    ensures m.store.entries == st.entries + [Entry(m.entryId, errorText.GetOr(""), solutionText.GetOr(""))]
    ensures RagStats(m.store.entries).totalSolutions == RagStats(st.entries).totalSolutions + 1
  {
    MarkByCounter(st, errorText, solutionText)
  }
}
