/** `extract_github_repo_info`, identical in both backends: Python's
    `re.search(r'github\.com/([^/]+)/([^/]+)', url)` written out as a
    scanner, followed by `.replace('.git', '')` on the repository part. */
module GitHubUrl {

  import opened Wrappers
  import opened Text

  /** The literal the pattern starts with (`github\.com/`). */
  const Host: string := "github.com/"

  /** The suffix the code means to drop from the repository name. */
  const GitSuffix: string := ".git"

  /** The `ValueError` message for a URL without a match. */
  const InvalidUrlMessage: string := "Invalid GitHub URL format"

  predicate NoSlash(s: string) {
    forall i :: 0 <= i < |s| ==> s[i] != '/'
  }

  /** The pattern matches `s` at index `at` with groups `owner` and `repo`:
      the host literal, a non-empty slash-free owner, a slash, and a
      non-empty slash-free repo that the greedy `[^/]+` extends up to the
      next slash or the end of the text. */
  ghost predicate Captures(s: string, at: int, owner: string, repo: string) {
    var o := at + |Host|;
    var r := o + |owner| + 1;
    var end := r + |repo|;
    && 0 <= at && end <= |s|
    && s[at..o] == Host
    && |owner| > 0 && NoSlash(owner) && s[o..o + |owner|] == owner
    && s[o + |owner|] == '/'
    && |repo| > 0 && NoSlash(repo) && s[r..end] == repo
    && (end == |s| || s[end] == '/')
  }

  /** The pattern does not match at index `at`. */
  ghost predicate NoMatchAt(s: string, at: int) {
    forall owner, repo :: !Captures(s, at, owner, repo)
  }

  /** The pattern matches at no index before `at`. */
  ghost predicate NoMatchBefore(s: string, at: int) {
    forall p :: 0 <= p < at ==> NoMatchAt(s, p)
  }

  /** The pattern matches at no index at all. */
  ghost predicate NoMatch(s: string) {
    forall p :: NoMatchAt(s, p)
  }

  /** What `re.search` reports: the match at the smallest index. */
  ghost predicate LeftmostMatch(s: string, at: int, owner: string, repo: string) {
    Captures(s, at, owner, repo) && NoMatchBefore(s, at)
  }

  /** At most one pair of groups matches at a given index. */
  lemma CapturesUnique(s: string, at: int, o1: string, r1: string, o2: string, r2: string)
    requires Captures(s, at, o1, r1) && Captures(s, at, o2, r2)
    ensures o1 == o2 && r1 == r2
  {
  }

  /** The end of the slash-free run starting at `k`: the first slash at or
      after `k`, or the end of the text. */
  function RunEnd(s: string, k: nat): (e: nat)
    requires k <= |s|
    ensures k <= e <= |s|
    ensures forall m :: k <= m < e ==> s[m] != '/'
    ensures e == |s| || s[e] == '/'
    decreases |s| - k
  {
    if k == |s| || s[k] == '/' then k else RunEnd(s, k + 1)
  }

  /** Tries the pattern at index `at` alone. */
  function MatchAt(s: string, at: nat): (r: Option<(string, string)>)
    ensures r.Some? ==> Captures(s, at, r.value.0, r.value.1)
    ensures r.None? ==> NoMatchAt(s, at)
  {
    if at + |Host| <= |s| && s[at..at + |Host|] == Host then
      var o := at + |Host|;
      var j := RunEnd(s, o);
      if j == o || j == |s| then
        None
      else
        var k := RunEnd(s, j + 1);
        if k == j + 1 then
          None
        else
          var owner, repo := s[o..j], s[j + 1..k];
          assert forall m :: 0 <= m < |owner| ==> owner[m] == s[o + m];
          assert forall m :: 0 <= m < |repo| ==> repo[m] == s[j + 1 + m];
          Some((owner, repo))
    else
      None
  }

  /** A match of the pattern: where it starts and its two groups. */
  datatype Match = Match(at: nat, owner: string, repo: string)

  /** `re.search` from index `from`: the leftmost index at which the pattern
      matches; indexes where it fails are skipped. */
  function SearchFrom(s: string, from: nat): (r: Option<Match>)
    ensures r.Some? ==> from <= r.value.at && Captures(s, r.value.at, r.value.owner, r.value.repo)
    ensures r.Some? ==> forall p :: from <= p < r.value.at ==> NoMatchAt(s, p)
    ensures r.None? ==> forall p :: from <= p ==> NoMatchAt(s, p)
    decreases |s| - from
  {
    if from > |s| then None
    else match MatchAt(s, from)
      case Some((owner, repo)) => Some(Match(from, owner, repo))
      case None => SearchFrom(s, from + 1)
  }

  /** The owner and repository the endpoint goes on with. */
  datatype RepoInfo = RepoInfo(owner: string, repo: string)

  /** The repository name with a trailing `.git` dropped, when there is one. */
  function StripGitSuffix(name: string): (r: string)
    ensures EndsWith(name, GitSuffix) ==> r + GitSuffix == name
    ensures !EndsWith(name, GitSuffix) ==> r == name
  {
    if EndsWith(name, GitSuffix) then
      assert name == name[..|name| - |GitSuffix|] + GitSuffix;
      name[..|name| - |GitSuffix|]
    else
      name
  }

  /** `extract_github_repo_info` as written: the repository group with every
      `.git` removed, wherever it occurs. */
  function ExtractRepoInfoAsWritten(url: string): (r: Result<RepoInfo, string>)
    ensures r.Failure? <==> NoMatch(url)
    ensures r.Failure? ==> r.error == InvalidUrlMessage
    ensures r.Success? ==> exists at, repo :: LeftmostMatch(url, at, r.value.owner, repo)
                                         && r.value.repo == RemoveAll(repo, GitSuffix)
  {
    match SearchFrom(url, 0)
    case None => Failure(InvalidUrlMessage)
    case Some(m) =>
      assert !NoMatchAt(url, m.at) && LeftmostMatch(url, m.at, m.owner, m.repo);
      Success(RepoInfo(m.owner, RemoveAll(m.repo, GitSuffix)))
  }

  /** `extract_github_repo_info` as evidently intended: only a trailing
      `.git`, the clone-URL suffix, is dropped. Everything else, including
      the error case, is as written. */
  function ExtractRepoInfo(url: string): (r: Result<RepoInfo, string>)
    ensures r.Failure? <==> NoMatch(url)
    ensures r.Failure? ==> r.error == InvalidUrlMessage
    ensures r.Success? ==> |r.value.owner| > 0 && NoSlash(r.value.owner)
    ensures r.Success? ==> exists at, repo :: LeftmostMatch(url, at, r.value.owner, repo)
                                         && r.value.repo == StripGitSuffix(repo)
  {
    match SearchFrom(url, 0)
    case None => Failure(InvalidUrlMessage)
    case Some(m) =>
      assert !NoMatchAt(url, m.at) && LeftmostMatch(url, m.at, m.owner, m.repo);
      Success(RepoInfo(m.owner, StripGitSuffix(m.repo)))
  }

  /** The correction changes only the repository name, and only when the
      captured name holds `.git` somewhere. */
  lemma {:induction false} CorrectionOnlyTouchesRepo(url: string)
    ensures ExtractRepoInfo(url).Success? == ExtractRepoInfoAsWritten(url).Success?
    ensures ExtractRepoInfo(url).Success? ==>
      ExtractRepoInfo(url).value.owner == ExtractRepoInfoAsWritten(url).value.owner
    ensures SearchFrom(url, 0).Some? && !Contains(SearchFrom(url, 0).value.repo, GitSuffix) ==>
      ExtractRepoInfo(url) == ExtractRepoInfoAsWritten(url)
  {
    match SearchFrom(url, 0)
    case None =>
    case Some(m) =>
      if !Contains(m.repo, GitSuffix) {
        NoOccurrenceNoSuffix(m.repo, GitSuffix);
        RemoveAllAbsent(m.repo, GitSuffix);
      }
  }

  /** A text that does not contain `suffix` does not end with it. */
  lemma NoOccurrenceNoSuffix(s: string, suffix: string)
    requires !Contains(s, suffix)
    ensures !EndsWith(s, suffix)
  {
    if EndsWith(s, suffix) {
      var p :| s == p + suffix;
      assert OccursAt(s, suffix, |p|);
    }
  }

  /** The clone URL and the page URL of a repository name the same
      repository. */
  lemma {:induction false} CloneSuffixStripped(owner: string, name: string)
    requires |owner| > 0 && NoSlash(owner) && |name| > 0 && NoSlash(name)
    requires !EndsWith(name, GitSuffix)
    ensures ExtractRepoInfo(Host + owner + "/" + name + GitSuffix) == Success(RepoInfo(owner, name))
    ensures ExtractRepoInfo(Host + owner + "/" + name) == Success(RepoInfo(owner, name))
  {
    var clone := Host + owner + "/" + name + GitSuffix;
    var page := Host + owner + "/" + name;
    OnlyMatchAtStart(clone, owner, name + GitSuffix);
    OnlyMatchAtStart(page, owner, name);
    assert EndsWith(name + GitSuffix, GitSuffix) by {
      assert (name + GitSuffix)[|name|..] == GitSuffix;
    }
  }

  /** For a URL that starts with a full match, the extraction reports that
      match's groups. */
  lemma {:induction false} OnlyMatchAtStart(url: string, owner: string, repo: string)
    requires |owner| > 0 && NoSlash(owner) && |repo| > 0 && NoSlash(repo)
    requires url == Host + owner + "/" + repo
    ensures SearchFrom(url, 0) == Some(Match(0, owner, repo))
  {
    var o := |Host|;
    assert url[0..o] == Host;
    assert url[o..o + |owner|] == owner;
    assert url[o + |owner|] == '/';
    assert url[o + |owner| + 1..|url|] == repo;
    assert Captures(url, 0, owner, repo);
    var m := SearchFrom(url, 0);
    assert m.Some? && m.value.at == 0;
    CapturesUnique(url, 0, owner, repo, m.value.owner, m.value.repo);
  }

  /** The name ending of a GitHub Pages repository, `.github.io`. */
  const PagesSuffix: string := ".github.io"

  /** The defect of the code as written: a GitHub Pages repository such as
      `octo/octo.github.io` loses the `.git` inside its name (`octohub.io`),
      and the corrected extraction keeps the name. */
  lemma {:induction false} PagesRepositoryMangled(owner: string)
    requires |owner| > 0 && NoSlash(owner)
    requires forall i :: 0 <= i < |owner| ==> owner[i] != '.'
    ensures ExtractRepoInfoAsWritten(Host + owner + "/" + owner + PagesSuffix)
         == Success(RepoInfo(owner, owner + "hub.io"))
    ensures ExtractRepoInfo(Host + owner + "/" + owner + PagesSuffix)
         == Success(RepoInfo(owner, owner + PagesSuffix))
  {
    var repo := owner + PagesSuffix;
    var url := Host + owner + "/" + owner + PagesSuffix;
    assert url == Host + owner + "/" + repo;
    PagesNameShape(owner);
    OnlyMatchAtStart(url, owner, repo);
  }

  /** The facts about `<owner>.github.io` the lemma above needs. */
  lemma PagesNameShape(owner: string)
    requires |owner| > 0 && NoSlash(owner)
    requires forall i :: 0 <= i < |owner| ==> owner[i] != '.'
    ensures NoSlash(owner + PagesSuffix)
    ensures RemoveAll(owner + PagesSuffix, GitSuffix) == owner + "hub.io"
    ensures StripGitSuffix(owner + PagesSuffix) == owner + PagesSuffix
  {
    PagesSuffixFacts();
    NoSlashConcat(owner, PagesSuffix);
    InnerGitDropped(owner, "hub.io");
    NotEndingInGit(owner, PagesSuffix);
  }

  lemma PagesSuffixFacts()
    ensures PagesSuffix == GitSuffix + "hub.io"
    ensures NoSlash(PagesSuffix) && !EndsWith(PagesSuffix, GitSuffix)
    ensures !Contains("hub.io", GitSuffix)
  {
    DotFreeHasNoGit("hub.io");
    assert PagesSuffix[|PagesSuffix| - |GitSuffix|] == 'b';
  }

  lemma NoSlashConcat(a: string, b: string)
    requires NoSlash(a) && NoSlash(b)
    ensures NoSlash(a + b)
  {
    assert forall i :: |a| <= i < |a + b| ==> (a + b)[i] == b[i - |a|];
  }

  /** A text ends in `.git` only if its last part, when that part is long
      enough, does. */
  lemma NotEndingInGit(a: string, b: string)
    requires |b| >= |GitSuffix| && !EndsWith(b, GitSuffix)
    ensures !EndsWith(a + b, GitSuffix)
  {
    assert (a + b)[|a + b| - |GitSuffix|..] == b[|b| - |GitSuffix|..];
  }

  /** `p + ".git" + t` loses its `.git` when neither `p` nor `t` holds one. */
  lemma InnerGitDropped(p: string, t: string)
    requires forall i :: 0 <= i < |p| ==> p[i] != '.'
    requires !Contains(t, GitSuffix)
    ensures RemoveAll(p + (GitSuffix + t), GitSuffix) == p + t
  {
    LeadingGitDropped(t);
    RemoveAllKeepsDotFreePrefix(p, GitSuffix + t);
  }

  /** No `.git` starts where no dot stands. */
  lemma DotFreeHasNoGit(t: string)
    requires forall i :: 0 <= i && i + |GitSuffix| <= |t| ==> t[i] != '.'
    ensures !Contains(t, GitSuffix)
  {
    forall i | 0 <= i && i + |GitSuffix| <= |t| ensures !OccursAt(t, GitSuffix, i) {
      assert t[i..i + |GitSuffix|][0] == t[i];
    }
  }

  /** A leading `.git` is dropped and, when the rest holds none, the rest is
      kept as it is. */
  lemma LeadingGitDropped(t: string)
    requires !Contains(t, GitSuffix)
    ensures RemoveAll(GitSuffix + t, GitSuffix) == t
  {
    assert (GitSuffix + t)[..4] == GitSuffix;
    assert (GitSuffix + t)[4..] == t;
    RemoveAllAbsent(t, GitSuffix);
  }

  /** Text without a dot cannot start an occurrence of `.git`, so the scan
      keeps it as it is. */
  lemma {:induction false} RemoveAllKeepsDotFreePrefix(p: string, t: string)
    requires forall i :: 0 <= i < |p| ==> p[i] != '.'
    ensures RemoveAll(p + t, GitSuffix) == p + RemoveAll(t, GitSuffix)
  {
    if |p| == 0 {
      assert p + t == t;
    } else {
      var s := p + t;
      assert s[0] == p[0] && s[1..] == p[1..] + t;
      RemoveAllKeepsHead(s);
      RemoveAllKeepsDotFreePrefix(p[1..], t);
      assert p == [p[0]] + p[1..];
    }
  }

  /** A first character other than a dot is kept. */
  lemma RemoveAllKeepsHead(s: string)
    requires |s| > 0 && s[0] != '.'
    ensures RemoveAll(s, GitSuffix) == [s[0]] + RemoveAll(s[1..], GitSuffix)
  {
    if |GitSuffix| <= |s| {
      assert s[..|GitSuffix|][0] == s[0];
    }
  }

  /** A match is never before the index where a run of misses ends. */
  lemma MatchNotBefore(s: string, a: int, o: string, r: string, b: int)
    requires Captures(s, a, o, r) && NoMatchBefore(s, b)
    ensures !(a < b)
  {
    assert a < b ==> NoMatchAt(s, a);
  }

  /** Two leftmost matches are the same match. */
  lemma LeftmostUnique(s: string, a1: int, o1: string, r1: string, a2: int, o2: string, r2: string)
    requires LeftmostMatch(s, a1, o1, r1) && LeftmostMatch(s, a2, o2, r2)
    ensures a1 == a2 && o1 == o2 && r1 == r2
  {
    MatchNotBefore(s, a1, o1, r1, a2);
    MatchNotBefore(s, a2, o2, r2, a1);
    CapturesUnique(s, a1, o1, r1, o2, r2);
  }

  /** The extraction reports the leftmost match, whichever way it is found. */
  lemma {:induction false} ExtractReportsLeftmost(url: string, at: int, owner: string, repo: string)
    requires LeftmostMatch(url, at, owner, repo)
    ensures ExtractRepoInfo(url) == Success(RepoInfo(owner, StripGitSuffix(repo)))
  {
    assert !NoMatchAt(url, at);
    var info := ExtractRepoInfo(url);
    var at', repo' :| LeftmostMatch(url, at', info.value.owner, repo') && info.value.repo == StripGitSuffix(repo');
    LeftmostUnique(url, at', info.value.owner, repo', at, owner, repo);
  }

  /** `re.search` does not stop at the first `github.com/`: when the pattern
      fails there (an empty owner, as in `github.com//github.com/a/b`), the
      later occurrence is used. */
  lemma {:induction false} RetriesAfterFailedHost()
    ensures ExtractRepoInfo(Host + "/" + Host + "a/b") == Success(RepoInfo("a", "b"))
  {
    var url := Host + "/" + Host + "a/b";
    RetryUrlMatch(url);
    ExtractReportsLeftmost(url, 12, "a", "b");
    assert !EndsWith("b", GitSuffix);
  }

  lemma {:induction false} RetryUrlMatch(url: string)
    requires url == Host + "/" + Host + "a/b"
    ensures LeftmostMatch(url, 12, "a", "b")
  {
    assert |url| == 26 && url[11] == '/';
    assert forall p :: 1 <= p < 11 ==> url[p] == Host[p];
    assert forall p :: 1 <= p < 11 ==> Host[p] != 'g';
    forall p, o, r | 0 <= p < 12 ensures !Captures(url, p, o, r) {
      if p + |Host| + |o| <= |url| && |o| > 0 {
        assert url[p..p + |Host|][0] == url[p];
        assert url[p + |Host|..p + |Host| + |o|][0] == url[p + |Host|];
      }
    }
    assert url[12..23] == Host;
    assert url[23..24] == "a";
    assert url[24] == '/';
    assert url[25..26] == "b";
  }

  /** A URL with no slash anywhere is rejected: the pattern needs at least
      the slash after `github.com` and the one between owner and repo. */
  lemma NoSlashRejected(url: string)
    requires NoSlash(url)
    ensures ExtractRepoInfo(url) == Failure(InvalidUrlMessage)
  {
    forall p ensures NoMatchAt(url, p) {
      forall owner, repo | Captures(url, p, owner, repo) ensures false {
      }
    }
  }
}
