/** Reporting (backend/src/services/reporting.ts): the pull request opened for
    a fixed incident, and the dashboard notification. Git, the GitHub API and
    the dashboard endpoint are oracles; what the model keeps is the guard,
    the names it derives, the order of the calls and which failures
    propagate. */
module Reporting {
  import opened Wrappers
  import opened Strings
  import opened Types

  const BranchPrefix: string := "depdoctor/"
  const BaseBranch: string := "main"
  const ReviewerTeam: string := "coderabbitai"

  /** How many characters of the incident id the branch keeps. */
  const IdPrefixLength: nat := 6

  /** The branch a fix is pushed to: the dependency's name and the first (at
      most) six characters of the incident id. */
  function BranchName(name: string, id: string): (r: string)
    ensures StartsWith(r, BranchPrefix + name + "-")
    ensures var tail := r[|BranchPrefix + name + "-"|..];
            |tail| == (if |id| < IdPrefixLength then |id| else IdPrefixLength) && StartsWith(id, tail)
  {
    var n := if |id| < IdPrefixLength then |id| else IdPrefixLength;
    var r := BranchPrefix + name + "-" + id[..n];
    assert r[..|BranchPrefix + name + "-"|] == BranchPrefix + name + "-";
    assert r[|BranchPrefix + name + "-"|..] == id[..n];
    r
  }

  /** Two incidents of the same dependency whose ids agree on their first six
      characters are pushed to the same branch (and the push is forced). */
  lemma BranchNamesCollide(name: string, id1: string, id2: string)
    requires |id1| >= IdPrefixLength && |id2| >= IdPrefixLength
    requires id1[..IdPrefixLength] == id2[..IdPrefixLength]
    ensures BranchName(name, id1) == BranchName(name, id2)
  {
  }

  /** `repoFullName.split('/')` destructured: the owner is the text before
      the first `/`, the repo the text between the first and the second `/`,
      and missing when there is no `/`. */
  function RepoSegments(full: string): (string, Option<string>) {
    var parts := Split(full, "/");
    (parts[0], if |parts| >= 2 then Some(parts[1]) else None)
  }

  /** The owner holds no `/` and starts the full name. */
  lemma RepoOwner(full: string)
    ensures var r := RepoSegments(full);
            '/' !in r.0 && StartsWith(full, r.0)
  {
    var parts := Split(full, "/");
    SplitPieces(full, "/");
    NotContainsChar(parts[0], '/');
    if IndexOf(full, "/").Some? {
      SplitAtFirst(full, "/");
    }
  }

  /** The repo is missing exactly when there is no `/`; otherwise it holds no
      `/` and follows the owner and the first `/`. */
  lemma RepoName(full: string)
    ensures var r := RepoSegments(full);
            && (r.1.None? <==> '/' !in full)
            && (r.1.Some? ==> '/' !in r.1.value && StartsWith(full, r.0 + "/" + r.1.value))
  {
    ContainsChar(full, '/');
    if '/' in full {
      RepoNameShape(full);
    }
  }

  lemma RepoNameShape(full: string)
    requires Contains(full, "/")
    ensures var r := RepoSegments(full);
            && r.1.Some? && '/' !in r.1.value && StartsWith(full, r.0 + "/" + r.1.value)
  {
    var parts := Split(full, "/");
    var i := IndexOf(full, "/").value;
    var rest := full[i + 1..];
    SplitSecond(full, "/");
    SplitPieces(full, "/");
    NotContainsChar(parts[1], '/');
    assert full[i..i + 1] == "/";
    match IndexOf(rest, "/")
    case Some(j) =>
      PieceLayout(full, i, "/", rest[..j]);
    case None =>
      PieceLayout(full, i, "/", rest);
  }

  /** `owner/repo` without further slashes splits back into its parts. */
  lemma RepoSegmentsRoundTrip(owner: string, repo: string)
    requires '/' !in owner && '/' !in repo
    ensures RepoSegments(owner + "/" + repo) == (owner, Some(repo))
  {
    SplitJoin([owner, repo], '/');
    assert Join([owner, repo], "/") == owner + "/" + repo by {
      assert Join([repo], "/") == repo;
    }
  }

  /** What the outside world does with the pull request: the git publish
      (checkout, add, commit, forced push), the PR creation and the reviewer
      request each succeed or fail. */
  datatype PrOracle = PrOracle(publishOk: bool, createOk: bool, reviewersOk: bool)

  /** The PR body's template inputs; its text rendering is not modelled. */
  datatype PrBody = PrBody(dependency: DependencyUpdate, stacktrace: string, summary: string, success: bool,
                           exitCode: Option<int>, stdout: string, stderr: string)

  datatype PrStep =
    | Publish(branch: string, commitMessage: string)
    | CreatePr(owner: string, repo: Option<string>, head: string, base: string, title: string, body: PrBody)
    | RequestReviewers(owner: string, repo: Option<string>, teams: seq<string>)

  datatype PrError = PublishFailed | CreateFailed

  predicate HasCredentials(githubToken: string, repoFullName: string) {
    githubToken != "" && repoFullName != ""
  }

  /** `openPullRequest`: nothing at all without credentials; otherwise
      publish, create, then ask for review, where only the first two can
      fail the call. */
  function OpenPullRequest(githubToken: string, repoFullName: string, incident: IncidentRecord, plan: RepairPlan,
                           validation: ValidationResult, o: PrOracle): (r: (Result<(), PrError>, seq<PrStep>))
    ensures !HasCredentials(githubToken, repoFullName) ==> r == (Ok(()), [])
    ensures HasCredentials(githubToken, repoFullName) ==>
              && |r.1| >= 1
              && r.1[0] == Publish(BranchName(incident.dependency.name, incident.id),
                                   "fix: repair " + incident.dependency.name + " upgrade")
    ensures r.0.Err? <==> HasCredentials(githubToken, repoFullName) && (!o.publishOk || !o.createOk)
    ensures |r.1| >= 2 ==>
              && r.1[1].CreatePr?
              && r.1[1].head == BranchName(incident.dependency.name, incident.id)
              && r.1[1].base == BaseBranch
              && r.1[1].owner == RepoSegments(repoFullName).0 && r.1[1].repo == RepoSegments(repoFullName).1
              && r.1[1].title == "Fix " + incident.dependency.name + " upgrade failure"
              && r.1[1].body.summary == plan.summary && r.1[1].body.success == validation.success
    ensures |r.1| >= 2 <==> HasCredentials(githubToken, repoFullName) && o.publishOk
    ensures |r.1| <= 3
    ensures |r.1| == 3 <==> HasCredentials(githubToken, repoFullName) && r.0.Ok?
    ensures |r.1| == 3 ==> r.1[2] == RequestReviewers(RepoSegments(repoFullName).0, RepoSegments(repoFullName).1, [ReviewerTeam])
  {
    if !HasCredentials(githubToken, repoFullName) then (Ok(()), [])
    else
      var name := incident.dependency.name;
      var branch := BranchName(name, incident.id);
      var publish := Publish(branch, "fix: repair " + name + " upgrade");
      if !o.publishOk then (Err(PublishFailed), [publish])
      else
        var (owner, repo) := RepoSegments(repoFullName);
        var body := PrBody(incident.dependency, incident.stacktrace, plan.summary, validation.success,
                           validation.exitCode, validation.stdout, validation.stderr);
        var create := CreatePr(owner, repo, branch, BaseBranch, "Fix " + name + " upgrade failure", body);
        if !o.createOk then (Err(CreateFailed), [publish, create])
        else (Ok(()), [publish, create, RequestReviewers(owner, repo, [ReviewerTeam])])
  }

  /** A failed reviewer request is swallowed: the call's result and actions are
      the same whichever way the request goes. */
  lemma ReviewerFailureSwallowed(githubToken: string, repoFullName: string, incident: IncidentRecord, plan: RepairPlan,
                                 validation: ValidationResult, o: PrOracle)
    ensures OpenPullRequest(githubToken, repoFullName, incident, plan, validation, o.(reviewersOk := false))
            == OpenPullRequest(githubToken, repoFullName, incident, plan, validation, o.(reviewersOk := true))
  {
  }

  /** What the dashboard is told. `pushToDashboard` catches and logs every
      failure of its post, so a notice is a `Dashboard` effect of the jobs
      with no failure path: the jobs go on after it whatever became of the
      post. */
  datatype Notice =
    | IncidentNotice(incident: IncidentRecord)
    | AttemptNotice(incidentId: string, plan: RepairPlan, validation: ValidationResult)
    | FixedNotice(incidentId: string)
}
