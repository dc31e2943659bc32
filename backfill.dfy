/**
 * The periodic backfill (scripts/analyze_missed_issues.py): for every
 * enabled repository that handles `issues`, find open issues old enough and
 * not yet marked analyzed, replay each as an `opened` event through the
 * webhook processor, and count the outcomes.
 *
 * GitHub's issue listing, the clock and the webhook processor are
 * parameters: the listing is what `get_issues` yields for a repository
 * (`None` where the search raises), the cutoff is the current time minus
 * the minimum age, and the processor maps an event and payload to its answer.
 */
module Backfill {
  import opened Wrappers
  import opened Text
  import opened Json
  import opened Config

  /** The fields of a listed open issue the script reads; times are instants on one clock. */
  datatype Issue = Issue(
    number: int,
    title: string,
    body: Option<string>,
    createdAt: int,
    isPullRequest: bool,
    labels: seq<string>,
    login: string,
    state: string,
    url: string)

  /** An issue the search keeps: old enough, not a pull request, and not marked analyzed. */
  predicate Eligible(issue: Issue, cutoff: int, analyzedLabel: string) {
    issue.createdAt <= cutoff && !issue.isPullRequest && analyzedLabel !in issue.labels
  }

  /** The eligible issues of `issues`, in order. */
  function Filter(issues: seq<Issue>, cutoff: int, analyzedLabel: string): (r: seq<Issue>)
    ensures |r| <= |issues|
  {
    if issues == [] then []
    else
      var last := issues[|issues| - 1];
      Filter(issues[..|issues| - 1], cutoff, analyzedLabel) + (if Eligible(last, cutoff, analyzedLabel) then [last] else [])
  }

  /** An issue survives the filter exactly when it is listed and eligible. */
  lemma {:induction false} FilterMembership(issues: seq<Issue>, cutoff: int, analyzedLabel: string, x: Issue)
    ensures x in Filter(issues, cutoff, analyzedLabel) <==> x in issues && Eligible(x, cutoff, analyzedLabel)
  {
    if issues != [] {
      var init := issues[..|issues| - 1];
      FilterMembership(init, cutoff, analyzedLabel, x);
      assert issues == init + [issues[|issues| - 1]];
    }
  }

  lemma {:induction false} FilterAppend(a: seq<Issue>, b: seq<Issue>, cutoff: int, analyzedLabel: string)
    ensures Filter(a + b, cutoff, analyzedLabel) == Filter(a, cutoff, analyzedLabel) + Filter(b, cutoff, analyzedLabel)
  {
    if b != [] {
      var init := b[..|b| - 1];
      FilterAppend(a, init, cutoff, analyzedLabel);
      assert (a + b)[..|a + b| - 1] == a + init;
    } else {
      assert a + b == a;
    }
  }

  /** The first `n` elements of `s`, or all of them when there are fewer. */
  function Take<T>(s: seq<T>, n: int): (r: seq<T>)
    ensures r <= s
    ensures |r| == if n <= 0 then 0 else if n < |s| then n else |s|
  {
    if n <= 0 then [] else if n < |s| then s[..n] else s
  }

  /**
   * What the search keeps of a listing: the first `cap` eligible issues in
   * listing order, none when the cap is not positive.
   */
  function Selected(issues: seq<Issue>, cutoff: int, analyzedLabel: string, cap: int): seq<Issue> {
    Take(Filter(issues, cutoff, analyzedLabel), cap)
  }

  /** The search returns at most `cap` issues, each a listed issue that is eligible, and misses none before the cap is reached. */
  lemma SelectedIsCappedFilter(issues: seq<Issue>, cutoff: int, analyzedLabel: string, cap: int)
    ensures var r := Selected(issues, cutoff, analyzedLabel, cap);
      && |r| <= (if cap < 0 then 0 else cap)
      && (forall i :: 0 <= i < |r| ==> r[i] in issues && Eligible(r[i], cutoff, analyzedLabel))
      && (|r| < cap ==> r == Filter(issues, cutoff, analyzedLabel))
  {
    var r := Selected(issues, cutoff, analyzedLabel, cap);
    forall i | 0 <= i < |r| ensures r[i] in issues && Eligible(r[i], cutoff, analyzedLabel) {
      assert r[i] in Filter(issues, cutoff, analyzedLabel);
      FilterMembership(issues, cutoff, analyzedLabel, r[i]);
    }
  }

  /** The dictionary the script builds for an issue (its two timestamps are not modelled). */
  function IssueData(issue: Issue): (d: Value)
    ensures d.Dict? && "number" in d.fields && "user" in d.fields
  {
    Dict(map[
      "number" := Int(issue.number),
      "title" := Str(issue.title),
      "body" := Str(if issue.body.Some? then issue.body.value else ""),
      "user" := Dict(map["login" := Str(issue.login)]),
      "labels" := List(seq(|issue.labels|, i requires 0 <= i < |issue.labels| => Dict(map["name" := Str(issue.labels[i])]))),
      "state" := Str(issue.state),
      "html_url" := Str(issue.url)])
  }

  function DataOf(issues: seq<Issue>): (r: seq<Value>)
    ensures |r| == |issues| && forall i :: 0 <= i < |issues| ==> r[i] == IssueData(issues[i])
  {
    seq(|issues|, i requires 0 <= i < |issues| => IssueData(issues[i]))
  }

  /** What `find_unanalyzed_issues` returns for a listing: the selected issues' data, or nothing when the search raised; each item is an object with its `number` and `user`. */
  function FoundIn(search: Option<seq<Issue>>, cutoff: int, analyzedLabel: string, cap: int): (r: seq<Value>)
    ensures AllReplayable(r)
  {
    if search.None? then [] else DataOf(Selected(search.value, cutoff, analyzedLabel, cap))
  }

  /** The filter over one more listed issue. */
  lemma FilterOfPrefix(issues: seq<Issue>, cutoff: int, analyzedLabel: string, k: nat)
    requires k < |issues|
    ensures Filter(issues[..k + 1], cutoff, analyzedLabel)
         == Filter(issues[..k], cutoff, analyzedLabel) + (if Eligible(issues[k], cutoff, analyzedLabel) then [issues[k]] else [])
  {
    assert issues[..k + 1][..k] == issues[..k];
  }

  lemma DataOfAppend(issues: seq<Issue>, issue: Issue)
    ensures DataOf(issues + [issue]) == DataOf(issues) + [IssueData(issue)]
  {
  }

  /** Once `cap` eligible issues are kept from a prefix, the rest of the listing cannot change the selection. */
  lemma SelectedAtCap(issues: seq<Issue>, cutoff: int, analyzedLabel: string, cap: int, k: nat)
    requires k <= |issues|
    requires k == |issues| || |Filter(issues[..k], cutoff, analyzedLabel)| >= cap
    requires k == 0 || |Filter(issues[..k], cutoff, analyzedLabel)| <= cap
    ensures Selected(issues, cutoff, analyzedLabel, cap) == Filter(issues[..k], cutoff, analyzedLabel)
  {
    assert issues == issues[..k] + issues[k..];
    FilterAppend(issues[..k], issues[k..], cutoff, analyzedLabel);
  }

  /**
   * `find_unanalyzed_issues`: walks the listing with a counter, stopping
   * once `cap` issues are kept and skipping recent issues, pull requests and
   * issues that already carry the analyzed label.
   */
  method FindUnanalyzedIssues(search: Option<seq<Issue>>, cutoff: int, analyzedLabel: string, cap: int)
    returns (found: seq<Value>)
    ensures search.None? ==> found == []
    ensures search.Some? ==> found == DataOf(Selected(search.value, cutoff, analyzedLabel, cap))
    ensures found == FoundIn(search, cutoff, analyzedLabel, cap)
  {
    if search.None? {
      return [];
    }
    var issues := search.value;
    found := [];
    var count := 0;
    ghost var kept: seq<Issue> := [];
    var k := 0;
    while k < |issues|
      invariant 0 <= k <= |issues|
      invariant kept == Filter(issues[..k], cutoff, analyzedLabel)
      invariant found == DataOf(kept) && count == |kept|
      invariant k == 0 || count <= cap
    {
      if count >= cap {
        break;
      }
      var issue := issues[k];
      FilterOfPrefix(issues, cutoff, analyzedLabel, k);
      k := k + 1;
      if issue.createdAt > cutoff {
        continue;
      }
      if issue.isPullRequest {
        continue;
      }
      if analyzedLabel in issue.labels {
        continue;
      }
      DataOfAppend(kept, issue);
      found := found + [IssueData(issue)];
      kept := kept + [issue];
      count := count + 1;
    }
    SelectedAtCap(issues, cutoff, analyzedLabel, cap, k);
  }

  // ---------------------------------------------------------------- replaying one issue

  /** What the webhook processor did with a replayed event: returned a result, or raised. */
  datatype ProcessAnswer = Answered(result: Value) | Raised(message: string)

  /** The webhook processor: event type and payload to its answer. */
  type Processor = (string, Value) -> ProcessAnswer

  /**
   * The synthetic `opened` payload for an issue of `repoName`; `None` where
   * building it raises (issue data that is not an object, or has no `user`).
   */
  function MissedIssuePayload(repoName: string, issueData: Value): Option<Value> {
    if !issueData.Dict? || "user" !in issueData.fields then None
    else Some(Dict(map[
      "action" := Str("opened"),
      "issue" := issueData,
      "repository" := Dict(map[
        "full_name" := Str(repoName),
        "name" := Str(LastField(repoName, '/')),
        "owner" := Dict(map["login" := Str(FirstField(repoName, '/'))])]),
      "sender" := issueData.fields["user"]]))
  }

  /**
   * For a repository named `owner/name` the payload is an `opened` issues
   * event that names the repository, its owner and the issue's author as
   * the sender.
   */
  lemma PayloadNamesRepository(owner: string, name: string, issue: Issue)
    requires '/' !in owner && '/' !in name
    ensures var p := MissedIssuePayload(owner + "/" + name, IssueData(issue));
      && p.Some? && p.value.Dict?
      && p.value.fields["action"] == Str("opened")
      && p.value.fields["issue"] == IssueData(issue)
      && p.value.fields["sender"] == Dict(map["login" := Str(issue.login)])
      && p.value.fields["repository"] == Dict(map[
           "full_name" := Str(owner + "/" + name),
           "name" := Str(name),
           "owner" := Dict(map["login" := Str(owner)])])
  {
    assert owner + "/" + name == owner + ['/'] + name;
    FirstFieldOfJoined(owner, name, '/');
    LastFieldOfJoined(owner, name, '/');
  }

  /** Issue data the replay can always report on: an object with a `number` (and a `user`, for the payload). */
  predicate Replayable(issueData: Value) {
    issueData.Dict? && "number" in issueData.fields && "user" in issueData.fields
  }

  /**
   * `process_missed_issue`: `Some(true)` exactly when the payload could be
   * built and the processor returned an object whose `status` is `success`.
   * Any exception on the way is caught and gives `Some(false)`, except that
   * the handler reads the issue number again to log it: for data that is not
   * an object or has no `number` that read raises too, which is `None`.
   */
  function ProcessMissedIssue(repoName: string, issueData: Value, process: Processor): (ok: Option<bool>)
    ensures ok.None? <==> !issueData.Dict? || "number" !in issueData.fields
    ensures ok == Some(true) <==>
      && MissedIssuePayload(repoName, issueData).Some?
      && "number" in issueData.fields
      && process("issues", MissedIssuePayload(repoName, issueData).value).Answered?
      && StatusOf(process("issues", MissedIssuePayload(repoName, issueData).value).result) == "success"
  {
    if !issueData.Dict? || "number" !in issueData.fields then None
    else
      match MissedIssuePayload(repoName, issueData)
      case None => Some(false)
      case Some(payload) =>
        match process("issues", payload)
        case Raised(_) => Some(false)
        case Answered(result) => Some(result.Dict? && Get(result.fields, "status", Null) == Str("success"))
  }

  /** Issue data the script built itself never raises: only the processor decides the outcome. */
  lemma ReplayDependsOnProcessorOnly(repoName: string, issue: Issue, process: Processor)
    ensures Replayable(IssueData(issue)) && MissedIssuePayload(repoName, IssueData(issue)).Some?
    ensures var p := MissedIssuePayload(repoName, IssueData(issue)).value;
      ProcessMissedIssue(repoName, IssueData(issue), process)
        == Some(process("issues", p).Answered? && StatusOf(process("issues", p).result) == "success")
  {
  }

  // ---------------------------------------------------------------- the whole run

  /** The per-repository counters. */
  datatype RepoResult = RepoResult(found: nat, processed: nat, successful: nat, errors: seq<Value>)

  /** The run's summary; `repositories` is keyed by repository name. */
  datatype Summary = Summary(
    totalRepos: nat,
    totalFound: nat,
    totalProcessed: nat,
    totalSuccessful: nat,
    repositories: map<string, RepoResult>)

  /** The repositories the run visits: enabled, and handling `issues` events. */
  predicate Visited(repo: RepositoryConfig) {
    repo.enabled && "issues" in repo.events
  }

  /** The issue number a failed replay records. */
  function NumberOf(issueData: Value): Value
    requires Replayable(issueData)
  {
    issueData.fields["number"]
  }

  /** Every element of the search's result is replayable. */
  predicate AllReplayable(found: seq<Value>) {
    forall i :: 0 <= i < |found| ==> Replayable(found[i])
  }

  /** The counters of a repository whose search found `found`, replayed in order. */
  function Outcomes(repoName: string, found: seq<Value>, process: Processor): RepoResult
    requires AllReplayable(found)
  {
    if found == [] then RepoResult(0, 0, 0, [])
    else
      var r := Outcomes(repoName, found[..|found| - 1], process);
      var d := found[|found| - 1];
      if ProcessMissedIssue(repoName, d, process) == Some(true) then RepoResult(r.found + 1, r.processed + 1, r.successful + 1, r.errors)
      else RepoResult(r.found + 1, r.processed + 1, r.successful, r.errors + [NumberOf(d)])
  }

  /** The counters after one more replayed issue. */
  lemma OutcomesOfPrefix(repoName: string, found: seq<Value>, process: Processor, j: nat)
    requires AllReplayable(found) && j < |found|
    ensures var r := Outcomes(repoName, found[..j], process);
      Outcomes(repoName, found[..j + 1], process)
        == if ProcessMissedIssue(repoName, found[j], process) == Some(true) then RepoResult(r.found + 1, r.processed + 1, r.successful + 1, r.errors)
           else RepoResult(r.found + 1, r.processed + 1, r.successful, r.errors + [NumberOf(found[j])])
  {
    assert found[..j + 1][..j] == found[..j] && found[..j + 1][j] == found[j];
  }

  /** Every found issue is processed once, and each either succeeds or records its number as an error. */
  lemma {:induction false} OutcomesCount(repoName: string, found: seq<Value>, process: Processor)
    requires AllReplayable(found)
    ensures var r := Outcomes(repoName, found, process);
      r.found == |found| && r.processed == r.found && r.successful + |r.errors| == r.processed
  {
    if found != [] {
      OutcomesCount(repoName, found[..|found| - 1], process);
    }
  }

  /** The search results the run works from, per repository name. */
  type Search = string -> Option<seq<Issue>>

  /** The summary after the run has gone through `repos`. */
  function SummaryOf(repos: seq<RepositoryConfig>, search: Search, cutoff: int, cron: CronAnalysisConfig, process: Processor): Summary {
    if repos == [] then Summary(0, 0, 0, 0, map[])
    else
      var s := SummaryOf(repos[..|repos| - 1], search, cutoff, cron, process);
      var repo := repos[|repos| - 1];
      if !Visited(repo) then s
      else
        var found := FoundIn(search(repo.name), cutoff, cron.analyzedLabel, cron.maxIssuesPerRepo);
        var r := Outcomes(repo.name, found, process);
        Summary(s.totalRepos + 1, s.totalFound + |found|, s.totalProcessed + r.processed,
                s.totalSuccessful + r.successful, s.repositories[repo.name := r])
  }

  /** How many of `repos` the run visits. */
  function CountVisited(repos: seq<RepositoryConfig>): nat {
    if repos == [] then 0
    else CountVisited(repos[..|repos| - 1]) + (if Visited(repos[|repos| - 1]) then 1 else 0)
  }

  /** Some visited repository of `repos` is named `name`. */
  predicate VisitedName(repos: seq<RepositoryConfig>, name: string) {
    exists i :: 0 <= i < |repos| && Visited(repos[i]) && repos[i].name == name
  }

  /**
   * The totals agree: every found issue is processed, at most all of them
   * succeed, and exactly the visited repositories are counted.
   */
  lemma {:induction false} SummaryTotals(repos: seq<RepositoryConfig>, search: Search, cutoff: int, cron: CronAnalysisConfig, process: Processor)
    ensures var s := SummaryOf(repos, search, cutoff, cron, process);
      && s.totalProcessed == s.totalFound
      && s.totalSuccessful <= s.totalProcessed
      && s.totalRepos == CountVisited(repos)
  {
    if repos != [] {
      var repo := repos[|repos| - 1];
      SummaryTotals(repos[..|repos| - 1], search, cutoff, cron, process);
      if Visited(repo) {
        OutcomesCount(repo.name, FoundIn(search(repo.name), cutoff, cron.analyzedLabel, cron.maxIssuesPerRepo), process);
      }
    }
  }

  /** The summary reports exactly the visited repositories: a disabled one, or one without `issues`, is never looked at. */
  lemma {:induction false} SummaryReportsVisited(repos: seq<RepositoryConfig>, search: Search, cutoff: int, cron: CronAnalysisConfig,
                                                 process: Processor, name: string)
    ensures name in SummaryOf(repos, search, cutoff, cron, process).repositories <==> VisitedName(repos, name)
  {
    if repos != [] {
      var init := repos[..|repos| - 1];
      var repo := repos[|repos| - 1];
      SummaryReportsVisited(init, search, cutoff, cron, process, name);
      if VisitedName(init, name) {
        var i :| 0 <= i < |init| && Visited(init[i]) && init[i].name == name;
        assert repos[i] == init[i];
      }
      if VisitedName(repos, name) && !(Visited(repo) && repo.name == name) {
        var i :| 0 <= i < |repos| && Visited(repos[i]) && repos[i].name == name;
        assert init[i] == repos[i];
      }
    }
  }

  /** Each visited repository's counters are those of its own search, when no other visited repository shares its name. */
  lemma {:induction false} SummaryRecordsRepository(repos: seq<RepositoryConfig>, search: Search, cutoff: int, cron: CronAnalysisConfig,
                                                    process: Processor, k: nat)
    requires k < |repos| && Visited(repos[k])
    requires forall j :: 0 <= j < |repos| && j != k && Visited(repos[j]) ==> repos[j].name != repos[k].name
    ensures var s := SummaryOf(repos, search, cutoff, cron, process);
      && repos[k].name in s.repositories
      && s.repositories[repos[k].name]
         == Outcomes(repos[k].name, FoundIn(search(repos[k].name), cutoff, cron.analyzedLabel, cron.maxIssuesPerRepo), process)
  {
    var init := repos[..|repos| - 1];
    if k < |init| {
      SummaryRecordsRepository(init, search, cutoff, cron, process, k);
    }
  }

  /** The run's summary after one more repository. */
  lemma SummaryOfPrefix(repos: seq<RepositoryConfig>, search: Search, cutoff: int, cron: CronAnalysisConfig, process: Processor, k: nat)
    requires k < |repos|
    ensures var s := SummaryOf(repos[..k], search, cutoff, cron, process);
      var repo := repos[k];
      var found := FoundIn(search(repo.name), cutoff, cron.analyzedLabel, cron.maxIssuesPerRepo);
      var r := Outcomes(repo.name, found, process);
      SummaryOf(repos[..k + 1], search, cutoff, cron, process)
        == if !Visited(repo) then s
           else Summary(s.totalRepos + 1, s.totalFound + |found|, s.totalProcessed + r.processed,
                        s.totalSuccessful + r.successful, s.repositories[repo.name := r])
  {
    assert repos[..k + 1][..k] == repos[..k] && repos[..k + 1][k] == repos[k];
  }

  /**
   * The inner loop of `analyze_all_repositories`: replays the found issues
   * one at a time, counting successes and recording the numbers of failures.
   */
  method ReplayFound(repoName: string, found: seq<Value>, process: Processor)
    returns (processed: nat, successful: nat, errors: seq<Value>)
    requires AllReplayable(found)
    ensures Outcomes(repoName, found, process) == RepoResult(|found|, processed, successful, errors)
  {
    processed, successful, errors := 0, 0, [];
    var j := 0;
    while j < |found|
      invariant 0 <= j <= |found|
      invariant Outcomes(repoName, found[..j], process) == RepoResult(j, processed, successful, errors)
    {
      OutcomesOfPrefix(repoName, found, process, j);
      var issueData := found[j];
      processed := processed + 1;
      var success := ProcessMissedIssue(repoName, issueData, process);
      if success == Some(true) {
        successful := successful + 1;
      } else {
        errors := errors + [NumberOf(issueData)];
      }
      j := j + 1;
    }
    assert found[..j] == found;
  }

  /**
   * `analyze_all_repositories`: visits the enabled repositories handling
   * `issues`, searches each, replays what it found one issue at a time and
   * updates the per-repository and total counters as it goes.
   */
  method AnalyzeAllRepositories(settings: Settings, search: Search, cutoff: int, process: Processor)
    returns (summary: Summary)
    ensures summary == SummaryOf(settings.repositories, search, cutoff, settings.cronAnalysis, process)
  {
    var repos := settings.repositories;
    var cron := settings.cronAnalysis;
    var totalRepos: nat, totalFound: nat, totalProcessed: nat, totalSuccessful: nat := 0, 0, 0, 0;
    var repositories: map<string, RepoResult> := map[];
    var k := 0;
    while k < |repos|
      invariant 0 <= k <= |repos|
      invariant Summary(totalRepos, totalFound, totalProcessed, totalSuccessful, repositories)
             == SummaryOf(repos[..k], search, cutoff, cron, process)
    {
      SummaryOfPrefix(repos, search, cutoff, cron, process, k);
      var repo := repos[k];
      k := k + 1;
      if !repo.enabled {
        continue;
      }
      if "issues" !in repo.events {
        continue;
      }
      totalRepos := totalRepos + 1;
      var found := FindUnanalyzedIssues(search(repo.name), cutoff, cron.analyzedLabel, cron.maxIssuesPerRepo);
      totalFound := totalFound + |found|;
      var processed, successful, errors := ReplayFound(repo.name, found, process);
      totalProcessed := totalProcessed + processed;
      totalSuccessful := totalSuccessful + successful;
      repositories := repositories[repo.name := RepoResult(|found|, processed, successful, errors)];
    }
    assert repos[..k] == repos;
    summary := Summary(totalRepos, totalFound, totalProcessed, totalSuccessful, repositories);
  }
}
