/**
 * The per-event handlers of hls/src/hsl_handler/handlers.py: which handler
 * serves which event, the action filters each handler applies before it
 * touches any client, and the plain issue handler's sequence of GitHub writes.
 *
 * The rendered prompt and the model's analysis are inputs (`None` where
 * rendering found no template or the model call raised); GitHub writes are
 * planned as `Actions.Call`s and run with `Actions.Perform`.
 */
module Handlers {
  import opened Wrappers
  import opened Text
  import opened Json
  import opened Config
  import opened Extractors
  import opened Actions

  // ---------------------------------------------------------------- the registry

  datatype HandlerKind =
    | IssueHandler | ChainedIssueHandler | PullRequestHandler | ReviewHandler | WorkflowHandler
    | PushHandler | CommitCommentHandler | ReleaseHandler | DeploymentHandler | ForkHandler
    | StarHandler | WatchHandler | MemberHandler | TeamHandler | ProjectHandler | MilestoneHandler
    | GenericHandler

  /** `HANDLERS` as the literal declares it. */
  const DeclaredHandlers: map<string, HandlerKind> := map[
    "issues" := IssueHandler,
    "pull_request" := PullRequestHandler,
    "pull_request_review" := ReviewHandler,
    "workflow_run" := WorkflowHandler,
    "push" := PushHandler,
    "commit_comment" := CommitCommentHandler,
    "release" := ReleaseHandler,
    "deployment" := DeploymentHandler,
    "fork" := ForkHandler,
    "star" := StarHandler,
    "watch" := WatchHandler,
    "member" := MemberHandler,
    "team" := TeamHandler,
    "project" := ProjectHandler,
    "milestone" := MilestoneHandler,
    "generic" := GenericHandler
  ]

  /** `HANDLERS` once the module has loaded: the chained issue handler replaces the plain one, and nothing else changes. */
  function Registry(): (r: map<string, HandlerKind>)
    ensures r.Keys == DeclaredHandlers.Keys
    ensures r["issues"] == ChainedIssueHandler
    ensures forall e :: e in r && e != "issues" ==> r[e] == DeclaredHandlers[e]
    ensures forall e :: e in r ==> r[e] != IssueHandler
  {
    DeclaredHandlers["issues" := ChainedIssueHandler]
  }

  // ---------------------------------------------------------------- action filters

  /** Why a handler returned `{"status": "ignored"}`. */
  datatype IgnoreReason =
    | ActionNotHandled(action: string)
    | ConclusionNotHandled(conclusion: Value)
    | NotAReviewRequest
    | NoCommits

  /** What a handler does when its template renders to nothing. */
  datatype MissingPrompt = ReportNoTemplate | FallBackToGeneric | UseBuiltInPrompt

  /** What a handler goes on to do with an event. */
  datatype Route =
    | Ignore(reason: IgnoreReason)
    | Analyze(eventType: string, promptAction: string, missing: MissingPrompt)
    | RunChain
    | Record

  /** The generic handler renders `generic.default`, with a built-in prompt when that template is missing. */
  const GenericRoute := Analyze("generic", "default", UseBuiltInPrompt)

  /** The route each handler's `handle` takes before its first client call. */
  function RouteOf(kind: HandlerKind, action: string, payload: map<string, Value>): (r: Route)
    ensures kind == IssueHandler ==> (r.Ignore? <==> action != "opened")
    ensures kind == PullRequestHandler ==> (r.Ignore? <==> action != "opened" && action != "synchronize")
    ensures kind == PullRequestHandler && action == "opened" ==> r == Analyze("pull_request", "new_pr", ReportNoTemplate)
    ensures kind == PullRequestHandler && action == "synchronize" ==> r == Analyze("pull_request", "pr_updated", ReportNoTemplate)
    ensures kind == ReviewHandler ==> (r.Ignore? <==> "requested_reviewer" !in payload)
    ensures kind == WorkflowHandler ==>
      (r.Ignore? <==> action != "completed" || Field(Get(payload, "workflow_run", Dict(map[])), "conclusion") != Str("failure"))
    ensures kind == ReleaseHandler ==> (r.Ignore? <==> action !in {"published", "created", "edited"})
    ensures kind == StarHandler ==> (r.Ignore? <==> action !in {"created", "deleted"})
    ensures kind == CommitCommentHandler ==> (r.Ignore? <==> action != "created")
    ensures kind == PushHandler ==> (r.Ignore? <==> !Truthy(Get(payload, "commits", List([]))))
    ensures kind in {ForkHandler, DeploymentHandler, WatchHandler, TeamHandler, MemberHandler} ==> !r.Ignore?
    ensures kind in {ProjectHandler, MilestoneHandler, GenericHandler, ChainedIssueHandler} ==> !r.Ignore?
    ensures r.Analyze? && r.missing == FallBackToGeneric ==> kind in {ForkHandler, DeploymentHandler}
  {
    match kind
    case IssueHandler =>
      if action != "opened" then Ignore(ActionNotHandled(action)) else Analyze("issues", action, ReportNoTemplate)
    case ChainedIssueHandler => RunChain
    case PullRequestHandler =>
      if action != "opened" && action != "synchronize" then Ignore(ActionNotHandled(action))
      else Analyze("pull_request", if action == "opened" then "new_pr" else "pr_updated", ReportNoTemplate)
    case ReviewHandler =>
      if "requested_reviewer" in payload then Analyze("pull_request_review", "requested", ReportNoTemplate)
      else Ignore(NotAReviewRequest)
    case WorkflowHandler =>
      var conclusion := Field(Get(payload, "workflow_run", Dict(map[])), "conclusion");
      if action != "completed" then Ignore(ActionNotHandled(action))
      else if conclusion != Str("failure") then Ignore(ConclusionNotHandled(conclusion))
      else Analyze("workflow_run", "completed", ReportNoTemplate)
    case PushHandler =>
      if !Truthy(Get(payload, "commits", List([]))) then Ignore(NoCommits) else Analyze("push", "commits", ReportNoTemplate)
    case CommitCommentHandler =>
      if action != "created" then Ignore(ActionNotHandled(action)) else GenericRoute
    case ReleaseHandler =>
      if action !in {"published", "created", "edited"} then Ignore(ActionNotHandled(action))
      else Analyze("release", action, ReportNoTemplate)
    case DeploymentHandler => Analyze("deployment", "created", FallBackToGeneric)
    case ForkHandler => Analyze("fork", "created", FallBackToGeneric)
    case StarHandler =>
      if action !in {"created", "deleted"} then Ignore(ActionNotHandled(action)) else Record
    case WatchHandler => Record
    case MemberHandler => GenericRoute
    case TeamHandler => GenericRoute
    case ProjectHandler => GenericRoute
    case MilestoneHandler => GenericRoute
    case GenericHandler => GenericRoute
  }

  // ---------------------------------------------------------------- the plain issue handler

  /** No suggested label set is the marker on its own, so the label call and the marker call never coincide. */
  lemma SuggestionsAreNotTheMarker(analysis: string)
    ensures AnalyzedLabel !in SuggestedLabels(analysis)
  {
    SuggestedLabelsDistinct(analysis);
  }

  /** The writes `IssueHandler.handle` makes after the analysis: labels, comment, closing, then the marker. */
  function IssuePlan(repo: Option<RepositoryConfig>, analysis: string): (plan: seq<Call>)
    ensures |plan| > 0 && plan[|plan| - 1] == MarkAnalyzed
    ensures forall i :: 0 <= i < |plan| - 1 ==> plan[i] != MarkAnalyzed
    ensures repo.None? ==> plan == [MarkAnalyzed]
    ensures AddIssueLabels(SuggestedLabels(analysis)) in plan
      <==> repo.Some? && SettingOn(repo.value, "apply_labels", true) && SuggestedLabels(analysis) != []
    ensures PostIssueComment(IssueAnalysisNotice(analysis)) in plan
      <==> repo.Some? && SettingOn(repo.value, "post_analysis_comments", true)
    ensures CloseIssue(IssueClosedNotice) in plan
      <==> repo.Some? && SettingOn(repo.value, "auto_close_invalid", false) && ShouldCloseIssue(analysis)
  {
    SuggestionsAreNotTheMarker(analysis);
    assert SuggestedLabels(analysis) != [AnalyzedLabel];
    var labels :=
      if repo.Some? && SettingOn(repo.value, "apply_labels", true) && SuggestedLabels(analysis) != []
      then [AddIssueLabels(SuggestedLabels(analysis))] else [];
    var comment :=
      if repo.Some? && SettingOn(repo.value, "post_analysis_comments", true)
      then [PostIssueComment(IssueAnalysisNotice(analysis))] else [];
    var close :=
      if repo.Some? && SettingOn(repo.value, "auto_close_invalid", false) && ShouldCloseIssue(analysis)
      then [CloseIssue(IssueClosedNotice)] else [];
    labels + comment + close + [MarkAnalyzed]
  }

  /** `labels_applied` as written: `apply_labels` is read with no default, so a repository that leaves it unset reports `[]`. */
  function IssueLabelsReportedAsWritten(repo: Option<RepositoryConfig>, analysis: string): (r: seq<string>)
    ensures r != [] ==> repo.Some? && "apply_labels" in repo.value.settings
  {
    if repo.Some? && Truthy(Get(repo.value.settings, "apply_labels", Null)) then SuggestedLabels(analysis) else []
  }

  /** `labels_applied` as intended: read with the same default as the labelling step. */
  function IssueLabelsReported(repo: Option<RepositoryConfig>, analysis: string): (r: seq<string>)
    ensures r == [] || r == SuggestedLabels(analysis)
    ensures r != [] <==> AddIssueLabels(SuggestedLabels(analysis)) in IssuePlan(repo, analysis)
  {
    if repo.Some? && SettingOn(repo.value, "apply_labels", true) then SuggestedLabels(analysis) else []
  }

  /** A repository that leaves `apply_labels` unset gets the analysis labels applied, yet the reply as written reports none. */
  lemma LabelsReportMissesDefault()
    ensures var repo := Some(NewRepositoryConfig("octo/app", ["issues"]));
      && AddIssueLabels(SuggestedLabels("bug")) in IssuePlan(repo, "bug")
      && IssueLabelsReportedAsWritten(repo, "bug") == []
      && IssueLabelsReported(repo, "bug") == SuggestedLabels("bug") != []
  {
    assert Lower("bug") == "bug";
    assert MatchesAt(Word("bug"), "bug", 0);
    assert SearchFrom(LabelRules[0].alternatives[0], "bug", 0);
    assert RuleFires(LabelRules, 0, Lower("bug"));
    SuggestedLabelsMembership("bug", "bug");
  }

  /**
   * `IssueHandler.handle`, given what rendering the prompt gave, what the
   * model answered (`None` when the call raised), the configured output
   * directories (`outputs.directories`) and which GitHub write raises, if any.
   * Saving the analysis indexes the directories with `issues` and no default,
   * so without that entry the handler fails before its first write.
   */
  function IssueHandle(action: string, existingLabels: seq<string>, repo: Option<RepositoryConfig>,
                       prompt: Option<string>, analysis: Option<string>, outputDirectories: map<string, string>,
                       failsAt: Option<nat>): (h: Handled)
    ensures action != "opened" ==> h.calls == [] && StatusOf(h.reply) == "ignored"
    ensures action == "opened" && AnalyzedLabel in existingLabels ==> h.calls == [] && StatusOf(h.reply) == "skipped"
    ensures MarkAnalyzed in h.calls <==> StatusOf(h.reply) == "success"
    ensures StatusOf(h.reply) == "success" ==>
      && action == "opened" && AnalyzedLabel !in existingLabels
      && prompt.Some? && prompt.value != "" && analysis.Some? && "issues" in outputDirectories
      && h.calls == IssuePlan(repo, analysis.value)
      && h.reply.Dict? && "labels_applied" in h.reply.fields
      && h.reply.fields["labels_applied"] == StrList(IssueLabelsReportedAsWritten(repo, analysis.value))
    ensures action == "opened" && AnalyzedLabel !in existingLabels && "issues" !in outputDirectories
      ==> h.calls == [] && StatusOf(h.reply) == "error"
    ensures StatusOf(h.reply) == "success" && (repo.None? || "apply_labels" in repo.value.settings) ==>
      h.reply.fields["labels_applied"] == StrList(IssueLabelsReported(repo, analysis.value))
    ensures h.calls <= (if analysis.Some? then IssuePlan(repo, analysis.value) else [])
  {
    if action != "opened" then
      Handled([], Reply("ignored", map["reason" := Str("action '" + action + "' not handled")]))
    else if AnalyzedLabel in existingLabels then
      Handled([], Reply("skipped", map["reason" := Str("already analyzed")]))
    else if prompt.None? || prompt.value == "" then
      Handled([], Reply("error", map["reason" := Str("no prompt template")]))
    else if analysis.None? || "issues" !in outputDirectories then
      Handled([], Reply("error", map[]))
    else
      var plan := IssuePlan(repo, analysis.value);
      var e := Perform(plan, failsAt);
      MarkAppliedIffCompleted(plan, failsAt);
      if e.completed then
        Handled(e.applied, Reply("success", map["labels_applied" := StrList(IssueLabelsReportedAsWritten(repo, analysis.value))]))
      else
        Handled(e.applied, Reply("error", map[]))
  }

  /** Under the default output settings (no output directories) the plain issue handler never writes to GitHub and never succeeds. */
  lemma DefaultOutputsNeverWrite(action: string, existingLabels: seq<string>, repo: Option<RepositoryConfig>,
                                 prompt: Option<string>, analysis: Option<string>, failsAt: Option<nat>)
    ensures var h := IssueHandle(action, existingLabels, repo, prompt, analysis, map[], failsAt);
      h.calls == [] && StatusOf(h.reply) != "success"
  {
  }
}
