# DevOps AI Assistant backends: matching and routing, modelled in Dafny

The two Python backends of the DevOps AI Assistant — the stdlib HTTP server
(`backend/simple_server.py`) and the FastAPI app (`backend/main.py`) — share
one small core. This project models that core with pure functions:

- the **solution store** (`rag_database`): an append-only list of
  `{id, error, solution}` records. `/mark-solution` appends to it and
  `/rag-stats` counts it;
- **retrieval** (`search_rag_database`): the first record whose error text
  contains the query, ignoring case. The hit becomes a solution with
  confidence 0.95 and a description of `error[:100] + "..."`;
- **recommendations**: the simple server picks three entries of a fixed
  five-entry table by keyword. main.py post-processes the model API's
  reply: it keeps at most ten items, numbers them and fills in missing
  fields. On any failure it returns a single fallback solution;
- **GitHub URL extraction** (`extract_github_repo_info`): the regular
  expression `github\.com/([^/]+)/([^/]+)` written out as a scanner with
  `re.search`'s leftmost-match semantics;
- **routing**: a retrieval hit answers with that one solution and source
  "rag"; otherwise the recommendations answer with source "claude".
  `/analyze-github` does this once per failed pipeline, in order.

Modules, one per component: `Wrappers` (Option/Result), `Text` (ASCII
`lower`, substring test, `endswith`, `replace`), `Store`, `Rag`, `Keyword`
(the simple server's table), `Generation` (main.py's post-processing),
`GitHubUrl`, `Router` (the shared routing), `SimpleServer` and
`FastApiServer` (the endpoints of each backend).

Facts about the two backends that the model keeps as they are:
- Retrieval is a case-insensitive containment test: the query is looked
  for inside each stored error text (`simple_server.py:27`, `main.py:78`).
  Nothing scores or ranks the records; the first one that contains the
  query wins.
- `/mark-solution` validates nothing: missing fields become `""`
  (`simple_server.py:178-184`), and a record holds no confidence.
- `/rag-stats` reports `total_solutions` and `database_entries`, both the
  length of the list (`simple_server.py:111-115`, `main.py:258-264`).
- main.py answers with an empty solution list when the model's reply
  parses to `[]` (`main.py:119-129`); the fallback is only for failures.
- An unmatched GitHub URL is answered with status 400 in both backends
  (`simple_server.py:170-171`, `main.py:242-243`).

## Model

| member | source | states |
|---|---|---|
| Text.SliceContainedIgnoringCase | backend/simple_server.py:27 | every slice of a text (`""` and the whole text included) passes the case-insensitive `in` test against that text |
| Text.ContainsIgnoringCaseLowered | backend/main.py:78 | lower-casing the stored error or the query first does not change the outcome of the test |
| Text.RemoveAllAbsent | backend/main.py:149 | `replace(pat, "")` leaves a text without `pat` unchanged |
| Store.Empty | backend/simple_server.py:17-18 | the start-up store is empty and satisfies the invariant that ids are positions and the counter is the length |
| Store.MarkByCounter | backend/simple_server.py:178-184 | `/mark-solution` adds exactly one record at the end and leaves earlier records unchanged; the new record's id is the old counter; the counter grows by one; missing fields are stored as `""`; the invariant is preserved |
| Store.MarkByLength | backend/main.py:249-254 | `mark_solution` adds one record whose id is the old length, leaves the others untouched, and keeps ids equal to positions |
| Store.MarkRulesAgree | backend/main.py:250 | on a valid store the counter-based and length-based id rules append the same record and report the same id |
| Store.IdsStrictlyIncrease | backend/simple_server.py:179-184 | when ids are positions they strictly increase along the list |
| Store.MarkAllValid | backend/simple_server.py:173-189 | any sequence of marks from the empty store yields a valid store whose i-th record is the i-th request with id i |
| Store.RagStats | backend/simple_server.py:111-115 | both reported counts equal the number of stored records |
| Store.StatsCountMarks | backend/simple_server.py:178-184 | each mark raises the `len(rag_database)` reported by `/rag-stats` (lines 111-115) by one; on a valid store the count equals the counter, the next id |
| Rag.Describe | backend/simple_server.py:30 | the description is at most 103 characters, its length is min(len, 100) + 3, it starts with a prefix of the error and ends with `"..."` |
| Rag.FirstHit | backend/simple_server.py:26-27 | the index returned is a hit and no earlier index is; no index is returned iff no record from the start point on is a hit |
| Rag.FromEntry | backend/simple_server.py:28-33 | a hit copies id and solution text, has confidence 0.95 and the shortened description |
| Rag.SearchRag | backend/simple_server.py:24-34 | `None` iff no record contains the query ignoring case; otherwise the solution built from the lowest-index record that does |
| Rag.SliceOfStoredErrorHits | backend/simple_server.py:26-27 | querying with any slice of a stored error text hits, at that record or an earlier one |
| Rag.ExactErrorHits | backend/simple_server.py:27 | querying with a stored record's exact error text always hits |
| Rag.EmptyQueryHitsFirst | backend/simple_server.py:126-130 | the empty query (a missing `log_content`) hits the oldest record of every non-empty store |
| Rag.EmptyStoreMisses | backend/main.py:77-85 | an empty store always misses |
| Rag.QueryCaseIgnored | backend/main.py:78 | lower-casing the query never changes the search result |
| Rag.HitSurvivesAppend | backend/simple_server.py:26-33 | appending records never changes a query's existing hit |
| Rag.MissDefersToAppended | backend/simple_server.py:26-34 | a query that missed the old records is answered exactly as the appended records alone would answer it |
| Rag.HitIdIsFirstIndex | backend/main.py:77-84 | on a valid store the hit's id is the position of the first matching record |
| Rag.MarkedErrorIsFound | backend/simple_server.py:178-183 | after a mark, the marked error text is always found |
| Keyword.TableDistinct | backend/simple_server.py:38-64 | the canned table has five pairwise different entries |
| Keyword.Classify | backend/simple_server.py:67-73 | the npm/node branch is taken iff either word occurs ignoring case; docker is taken only when present; permission only when present and docker is absent; the default iff no keyword occurs |
| Keyword.Picks | backend/simple_server.py:68-74 | every branch selects three different positions of the five-entry table |
| Keyword.Recommend | backend/simple_server.py:36-74 | always exactly three pairwise different table entries, at the positions the chosen branch lists |
| Keyword.RecommendIgnoresCase | backend/simple_server.py:67-71 | a text and its lower-cased form get the same recommendations |
| Keyword.NodeJsFirst | backend/simple_server.py:67-68 | npm or node wins over every other keyword: Dependency, Build, Configuration |
| Keyword.DockerBeforePermission | backend/simple_server.py:69-70 | without npm/node, docker wins over permission: Build, Permission, Network |
| Keyword.PermissionAlone | backend/simple_server.py:71-72 | permission alone gives Permission, Configuration, Network |
| Keyword.NoKeywordFirstThree | backend/simple_server.py:73-74 | with no keyword the first three table entries come back in table order |
| Keyword.UpperCaseKeywordFound | backend/simple_server.py:67 | `NPM` anywhere in the text selects the npm branch |
| GitHubUrl.RunEnd | backend/simple_server.py:78 | the greedy `[^/]+` run ends at the first slash at or after its start, or at the end of the text |
| GitHubUrl.CapturesUnique | backend/simple_server.py:78 | at a given index the pattern has at most one pair of groups |
| GitHubUrl.MatchAt | backend/simple_server.py:78-79 | at one index: groups are returned iff the pattern matches there, and they are the pattern's groups |
| GitHubUrl.SearchFrom | backend/simple_server.py:79 | the match returned is at the smallest index where the pattern matches; none is returned iff it matches nowhere |
| GitHubUrl.ExtractRepoInfoAsWritten | backend/simple_server.py:76-82 | `ValueError` iff the pattern matches nowhere; otherwise the owner of the leftmost match and its repo group with every `.git` removed |
| GitHubUrl.PagesRepositoryMangled | backend/simple_server.py:81 | for every owner without dots or slashes, as written `github.com/<owner>/<owner>.github.io` yields repo `<owner>hub.io`, while the corrected extraction keeps `<owner>.github.io` |
| GitHubUrl.StripGitSuffix | backend/main.py:149 | a name ending in `.git` loses exactly that suffix; any other name is unchanged |
| GitHubUrl.ExtractRepoInfo | backend/main.py:144-150 | corrected extraction: the same error condition and owner (non-empty, slash-free, followed by `/`); the repo group loses only a trailing `.git` |
| GitHubUrl.CorrectionOnlyTouchesRepo | backend/main.py:149 | the correction changes neither success nor owner, and changes nothing when the repo group has no `.git` |
| GitHubUrl.CloneSuffixStripped | backend/main.py:146-149 | the clone URL (`.../repo.git`) and the page URL of a repository give the same owner and repo |
| GitHubUrl.LeftmostUnique | backend/main.py:147 | two leftmost matches of the pattern coincide |
| GitHubUrl.ExtractReportsLeftmost | backend/main.py:147-149 | the extraction reports the groups of the leftmost match |
| GitHubUrl.RetriesAfterFailedHost | backend/simple_server.py:79 | when the pattern fails at the first `github.com/` (`github.com//github.com/a/b`), the later occurrence is used |
| GitHubUrl.NoSlashRejected | backend/main.py:150 | a URL without any slash is rejected with the `ValueError` message |
| Generation.FirstIndexOf | backend/main.py:119 | the index returned holds the character and no earlier one does; none iff the character is absent |
| Generation.LastIndexOf | backend/main.py:119 | the index returned holds the character and no later one does; none iff the character is absent |
| Generation.BracketSpan | backend/main.py:119-120 | no span iff no `]` follows any `[`; otherwise the text from the first `[` to the last `]` |
| Generation.SpanIsOuterBrackets | backend/main.py:119 | for every reply made of text without `[`, a part `x` opening with `[` and closing with `]`, and text without `]`, the span is exactly `x`, including any brackets inside it (two arrays and the text between them, say) |
| Generation.PostProcess | backend/main.py:122-130 | keeps min(n, 10) items; ids are positions; missing description and solution text become `""` and a missing confidence 0.5 |
| Generation.CapKeepsPrefix | backend/main.py:123 | extra items past the tenth never change the result, and the result on a prefix is a prefix of the result |
| Generation.CompleteItemsKept | backend/main.py:124-129 | an item with every field present is returned as it was, numbered by its position |
| Generation.Recommend | backend/main.py:114-142 | at most ten solutions with ids equal to positions; a raised request, a non-200 status, an unreadable body, no `[...]` span, or a span whose parsing or `Solution` construction raises yields exactly the fallback (id 0, confidence 0.8) |
| Generation.EmptyArrayIsNotFallback | backend/main.py:120-130 | a reply that parses to an empty array yields an empty list, not the fallback |
| Generation.ParsedItemsShaped | backend/main.py:121-130 | a reply that parses yields the post-processed items |
| Router.Route | backend/simple_server.py:128-135 | source is "rag" iff some record contains the query; then the single solution is the search's hit; otherwise the recommendations for the query |
| Router.ErrorText | backend/simple_server.py:149 | the searched text is the failure reason, a newline, then the logs |
| Router.AnalyzePipelines | backend/simple_server.py:147-168 | exactly one result per pipeline, in pipeline order, each routed on that pipeline's own error text |
| Router.AnalyzeGithub | backend/main.py:213-243 | a URL the pattern does not match gives 400 with the `ValueError` message, exactly when the extraction as written fails; otherwise one routed result per pipeline in order |
| Router.EmptyStoreGenerates | backend/main.py:187-193 | with an empty store every request is answered by the recommendations |
| Router.MarkedPipelineRetrieved | backend/main.py:221-230 | once a pipeline's error text is marked, that pipeline is answered from the store |
| Router.SourceIndependentOfRecommender | backend/main.py:224-225 | the source is decided by the search alone, whatever the recommendations would be |
| SimpleServer.SearchLogs | backend/simple_server.py:123-135 | "rag" iff some record contains the (defaulted) log content; otherwise exactly three recommendations; a hit is the search's first match; missing `log_content` on a non-empty store returns the oldest record |
| SimpleServer.UploadLogs | backend/simple_server.py:194-200 | always the first three table entries with source "claude" |
| SimpleServer.AnalyzeGithub | backend/simple_server.py:139-171 | 400 iff the URL has no match; otherwise one result per pipeline in order, each the routing of its error text: the search's first hit if any, else the three keyword recommendations for that text |
| SimpleServer.MarkSolution | backend/simple_server.py:173-189 | on a valid store: the entry id is the old length, the store stays valid, and the count grows by one |
| FastApiServer.SearchLogs | backend/main.py:183-193 | "rag" iff the search hits, and then the hit is the search's first match with confidence 0.95; otherwise the model's post-processed (or fallback) solutions for that text, at most ten, numbered by position |
| FastApiServer.UploadLogs | backend/main.py:195-210 | accepted iff the name ends in `.log` or `.txt`, else 400 with the fixed message; accepted content is routed like `search_logs` |
| FastApiServer.UpperCaseExtensionRefused | backend/main.py:198-199 | the extension test is case-sensitive: `.LOG` is refused, `.log` accepted |
| FastApiServer.AnalyzeGithub | backend/main.py:212-243 | 400 iff the URL has no match; otherwise each pipeline in order, routed like `search_logs` on its error text |
| FastApiServer.MarkSolution | backend/main.py:245-256 | the id is the old length; ids stay equal to positions; the marked error is then found by the search |

## Left out

- HTTP plumbing is not modelled: sockets, FastAPI decorators, CORS headers, `Content-Length`, JSON encoding and decoding, multipart reading and UTF-8 decoding. Request bodies arrive as already-decoded fields.
- The `/` and `/health` endpoints, `validate_claude_api_key` and 404 routing are not modelled. They are I/O or constant messages.
- The model API call in main.py is not modelled. Its reply is an input (`Generation.Reply`, or a function `replyTo` from error text to reply). The JSON parser is an input (`parse`), and `None` stands for every exception the parsing and `Solution` construction can raise. Because `replyTo` is a function of the error text, two pipelines with the same error text in one `/analyze-github` request get the same reply; the real `requests.post` (main.py:115) promises no such thing.
- `get_github_failed_pipelines` returns fixed mock data in both files. The pipeline list is an input instead.
- `lower()` is modelled for ASCII only. Python's Unicode case mapping is left out; it can even change a string's length.
- Confidences are exact `real` constants (0.95, 0.8, 0.5 and the table's values). Python floats are not modelled; they are only copied, never computed.
- SimpleServer.AnalyzeGithub: the simple server's catch-all `except Exception` also turns malformed JSON into a 400. Its detail text adds the prefix "Error processing GitHub URL: ". Only the status is stated.
- main.py request validation is not modelled: pydantic rejects a missing field with 422, and `MarkSolutionRequest.solution_id` is accepted but never used. An upload without a file name raises a 500. None of these is modelled.
- The simple server stores JSON values that are not strings as they are, and a later `.lower()` fails on them. Fields are strings here.
- Concurrency between requests is not modelled. Each endpoint is a function from the store to a response and a new store.
- The test and demo scripts (`test_enhanced_functionality.py`, `test_real_apis.py`, `demonstrate_fix.py`, `real_api_demo.py`) are not modelled. They are HTTP clients aimed at `enhanced_server.py`, which is not part of this model.

## Findings

| source | as written | input that shows it | evidently intended | confidence | as-written member | corrected member |
|---|---|---|---|---|---|---|
| backend/simple_server.py:81 | the `.replace('.git', '')` on the repository group removes `.git` wherever it occurs in the repository name (main.py:149 is the same) | `github.com/octo/octo.github.io` gives repo `octohub.io` | drop only the trailing `.git` of a clone URL | high; not executed | GitHubUrl.ExtractRepoInfoAsWritten, GitHubUrl.PagesRepositoryMangled | GitHubUrl.ExtractRepoInfo, GitHubUrl.CloneSuffixStripped |

The routing (`Router.AnalyzeGithub`) uses the corrected extraction. Only its
success or failure reaches the routing, and those are the same as written
(`GitHubUrl.CorrectionOnlyTouchesRepo`).
