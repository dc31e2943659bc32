/**
 * The issue handler the registry actually uses
 * (hls/src/hsl_handler/chained_issue_handler.py): a two-step chain that
 * first analyses a newly opened issue and then drafts a reply, the keyword
 * extraction run on the first answer, the combined comment, and the GitHub
 * writes made afterwards.
 */
module ChainedIssue {
  import opened Wrappers
  import opened Text
  import opened Json
  import opened Config
  import opened Prompts
  import opened Extractors
  import opened Actions
  import opened Chain

  // ---------------------------------------------------------------- the chain

  const AnalyzeStep := ChainStep("initial_analysis", "issues.analyze", Some("extract_analysis_data"), None, true)
  const RespondStep := ChainStep("generate_response", "issues.respond", None, None, true)

  /** `get_chain_steps`: the analyse-then-respond chain for an opened issue, and nothing otherwise. */
  function GetChainSteps(action: string): (steps: seq<ChainStep>)
    ensures steps != [] <==> action == "opened"
    ensures steps != [] ==> |steps| == 2 && steps[0].name != steps[1].name
    ensures forall i :: 0 <= i < |steps| ==> !Named(steps[i].conditionFunc)
    ensures forall i :: 0 < i < |steps| ==> !Named(steps[i].extractFunc)
  {
    if action != "opened" then [] else [AnalyzeStep, RespondStep]
  }

  /** The analysis step renders the `analyze` template of the `issues` event. */
  lemma AnalyzeStepResolves()
    ensures SplitPromptKey(AnalyzeStep.promptKey) == ("issues", "analyze")
  {
    assert AnalyzeStep.promptKey == "issues" + "." + "analyze";
    SplitPromptKeyOfJoined("issues", "analyze");
  }

  /** The response step renders the `respond` template of the `issues` event. */
  lemma RespondStepResolves()
    ensures SplitPromptKey(RespondStep.promptKey) == ("issues", "respond")
  {
    assert RespondStep.promptKey == "issues" + "." + "respond";
    SplitPromptKeyOfJoined("issues", "respond");
  }

  // ---------------------------------------------------------------- extracting the analysis

  /** What `extract_analysis_data` reads off an answer. */
  datatype Analysis = Analysis(
    labels: seq<string>,
    priority: string,
    category: string,
    needsMoreInfo: bool,
    isDuplicate: bool,
    shouldClose: bool)

  /** The first five rows of the label table: the content labels the chained handler looks for. */
  const ContentRules: seq<LabelRule> := LabelRules[..5]

  const HighPriority: seq<Pattern> := [Regex("high.priority", false), Regex("critical", false), Regex("urgent", false)]
  const LowPriority: seq<Pattern> := [Regex("low.priority", false), Regex("minor", false), Regex("trivial", false)]
  const NeedsInfo: seq<Pattern> := [Regex("need.more.information", false), Regex("need.more.details", false), Regex("unclear", false)]
  const Duplicate: seq<Pattern> := [Regex("duplicate", false), Regex("already.reported", false), Regex("existing.issue", false)]

  /** The priority of a lower-cased answer: high wins over low, and medium is the default. */
  function Priority(lower: string): (p: string)
    ensures p == "high" <==> SearchAny(HighPriority, lower)
    ensures p == "low" <==> !SearchAny(HighPriority, lower) && SearchAny(LowPriority, lower)
    ensures p == "medium" <==> !SearchAny(HighPriority, lower) && !SearchAny(LowPriority, lower)
  {
    if SearchAny(HighPriority, lower) then "high"
    else if SearchAny(LowPriority, lower) then "low"
    else "medium"
  }

  /** The category of a lower-cased answer: the first keyword group that occurs, by plain substring test. */
  function Category(lower: string): (c: string)
    ensures c == "bug" <==> Contains(lower, "bug")
    ensures c == "feature" <==> !Contains(lower, "bug") && (Contains(lower, "feature") || Contains(lower, "enhancement"))
    ensures c == "question" <==>
      !Contains(lower, "bug") && !Contains(lower, "feature") && !Contains(lower, "enhancement") && Contains(lower, "question")
    ensures c == "documentation" <==>
      !Contains(lower, "bug") && !Contains(lower, "feature") && !Contains(lower, "enhancement")
      && !Contains(lower, "question") && Contains(lower, "documentation")
    ensures c == "unknown" <==>
      !Contains(lower, "bug") && !Contains(lower, "feature") && !Contains(lower, "enhancement")
      && !Contains(lower, "question") && !Contains(lower, "documentation")
  {
    if Contains(lower, "bug") then "bug"
    else if Contains(lower, "feature") || Contains(lower, "enhancement") then "feature"
    else if Contains(lower, "question") then "question"
    else if Contains(lower, "documentation") then "documentation"
    else "unknown"
  }

  /** The analysis of an answer. The close marker is looked for in the answer as written, everything else in its lower-cased form. */
  function AnalysisOf(response: string): Analysis {
    var lower := Lower(response);
    var p := Priority(lower);
    Analysis(
      LabelsFrom(ContentRules, lower) + ["priority-" + p],
      p,
      Category(lower),
      SearchAny(NeedsInfo, lower),
      SearchAny(Duplicate, lower),
      ShouldCloseIssue(response))
  }

  /** The analysis as the dictionary the handler keeps. */
  function ToDict(a: Analysis): map<string, Value> {
    map[
      "labels" := StrList(a.labels),
      "priority" := Str(a.priority),
      "category" := Str(a.category),
      "needs_more_info" := Bool(a.needsMoreInfo),
      "is_duplicate" := Bool(a.isDuplicate),
      "should_close" := Bool(a.shouldClose)]
  }

  /** A result of `LabelsFrom` over a prefix of the rules is a prefix of the result over all of them. */
  lemma {:induction false} LabelsFromPrefix(rules: seq<LabelRule>, k: nat, s: string)
    requires k <= |rules|
    ensures LabelsFrom(rules[..k], s) <= LabelsFrom(rules, s)
    decreases |rules|
  {
    if k < |rules| {
      var last := |rules| - 1;
      assert rules[..last][..k] == rules[..k];
      LabelsFromPrefix(rules[..last], k, s);
    } else {
      assert rules[..k] == rules;
    }
  }

  /** The content labels are among the first five table labels, none of which starts with `p`. */
  lemma ContentLabelShape(lower: string, l: string)
    requires l in LabelsFrom(ContentRules, lower)
    ensures l != "" && l[0] != 'p'
  {
    LabelsFromMembership(ContentRules, lower, l);
    var k :| 0 <= k < |ContentRules| && ContentRules[k].name == l && RuleFires(ContentRules, k, lower);
    assert k == 0 || k == 1 || k == 2 || k == 3 || k == 4;
  }

  /**
   * The labels of an analysis: the content labels whose expression occurs,
   * in table order and with no repeats, followed by the priority label. The
   * content labels are the ones the plain issue handler suggests from the
   * first five rows of its table.
   */
  lemma AnalysisLabels(response: string)
    ensures var a := AnalysisOf(response);
      && |a.labels| >= 1 && a.labels[|a.labels| - 1] == "priority-" + a.priority
      && a.priority in {"high", "medium", "low"}
      && NoDuplicates(a.labels)
      && a.labels[..|a.labels| - 1] <= SuggestedLabels(response)
      && a.labels != [AnalyzedLabel]
  {
    var a := AnalysisOf(response);
    var lower := Lower(response);
    var content := LabelsFrom(ContentRules, lower);
    assert a.labels[..|a.labels| - 1] == content;
    LabelsFromPrefix(LabelRules, 5, lower);
    LabelRulesDistinct();
    assert seq(|ContentRules|, k requires 0 <= k < |ContentRules| => ContentRules[k].name)
        == seq(|LabelRules|, k requires 0 <= k < |LabelRules| => LabelRules[k].name)[..5];
    LabelsFromDistinct(ContentRules, lower);
    forall i | 0 <= i < |content| ensures content[i] != a.labels[|a.labels| - 1] {
      ContentLabelShape(lower, content[i]);
    }
    assert a.labels[|a.labels| - 1][0] == 'p';
  }

  /** A label of an analysis is either a content label whose expression occurs, or the priority label. */
  lemma AnalysisLabelMembership(response: string, l: string)
    ensures l in AnalysisOf(response).labels <==>
      l == "priority-" + AnalysisOf(response).priority
      || exists k :: 0 <= k < |ContentRules| && ContentRules[k].name == l && RuleFires(ContentRules, k, Lower(response))
  {
    LabelsFromMembership(ContentRules, Lower(response), l);
  }

  /**
   * `extract_analysis_data`: starts from the defaults, collects the content
   * labels in table order, then sets priority, category and the three flags,
   * and appends the priority label.
   */
  method ExtractAnalysisData(response: string) returns (data: map<string, Value>)
    ensures data == AnalysisDataOf(response)
  {
    var labels: seq<string> := [];
    var priority := "medium";
    var category := "unknown";
    var needsMoreInfo := false;
    var isDuplicate := false;
    var shouldClose := false;
    var lower := Lower(response);
    var k := 0;
    while k < |ContentRules|
      invariant 0 <= k <= |ContentRules|
      invariant labels == LabelsFrom(ContentRules[..k], lower)
    {
      assert ContentRules[..k + 1][..k] == ContentRules[..k];
      if SearchAny(ContentRules[k].alternatives, lower) {
        labels := labels + [ContentRules[k].name];
      }
      k := k + 1;
    }
    assert ContentRules[..k] == ContentRules;
    if SearchAny(HighPriority, lower) {
      priority := "high";
    } else if SearchAny(LowPriority, lower) {
      priority := "low";
    }
    assert priority == Priority(lower);
    if Contains(lower, "bug") {
      category := "bug";
    } else if Contains(lower, "feature") || Contains(lower, "enhancement") {
      category := "feature";
    } else if Contains(lower, "question") {
      category := "question";
    } else if Contains(lower, "documentation") {
      category := "documentation";
    }
    assert category == Category(lower);
    if SearchAny(NeedsInfo, lower) {
      needsMoreInfo := true;
    }
    if SearchAny(Duplicate, lower) {
      isDuplicate := true;
    }
    if Contains(response, CloseMarker) {
      shouldClose := true;
    }
    labels := labels + ["priority-" + priority];
    var analysis := Analysis(labels, priority, category, needsMoreInfo, isDuplicate, shouldClose);
    assert analysis == AnalysisOf(response);
    data := ToDict(analysis);
  }

  /** The handler's methods a step may name: only the extractor. */
  function IssueHooks(): Hooks {
    Hooks(map[], map["extract_analysis_data" := AnalysisDataOf])
  }

  /** What `extract_analysis_data` returns for an answer. */
  function AnalysisDataOf(response: string): map<string, Value> {
    ToDict(AnalysisOf(response))
  }

  /** The environment the chain runs in for this handler. */
  function IssueEnv(templates: map<string, map<string, string>>, files: Files, render: Renderer, model: Model): Env {
    Env(templates, files, render, IssueHooks(), model)
  }

  /** `results[0].extracted_data or {}`: the data of the first result, if it has any. */
  function AnalysisDict(results: seq<ChainResult>): map<string, Value> {
    if results != [] && results[0].extractedData.Some? then results[0].extractedData.value else map[]
  }

  /** The shape of the results of this handler's chain. */
  predicate IssueChainShape(rs: seq<ChainResult>) {
    && |rs| <= 2
    && (rs != [] && rs[0].stepName == AnalyzeStep.name ==> AnalysisDict(rs) == AnalysisDataOf(rs[0].response))
    && (rs != [] && rs[0].stepName != AnalyzeStep.name ==> rs[0].stepName == RespondStep.name && AnalysisDict(rs) == map[])
    && (|rs| == 2 ==> rs[0].stepName == AnalyzeStep.name && rs[1].stepName == RespondStep.name)
  }

  /**
   * After a run of the chain the first result's data is the analysis of its
   * answer when the analysis step produced it, and empty when the analysis
   * step was skipped; with two results, both steps ran, in order.
   */
  lemma ChainResultsShape(env: Env, action: string, st: State)
    requires env.hooks == IssueHooks() && st.results == []
    ensures IssueChainShape(Run(env, GetChainSteps(action), st).state.results)
  {
    var steps := GetChainSteps(action);
    RunResultsFollowSteps(env, steps, st);
    var rs := Run(env, steps, st).state.results;
    assert rs[|st.results|..] == rs;
    if steps != [] {
      FollowingStepsShape(rs);
    }
  }

  /** Results recorded by the two steps, in order, have the chain's shape. */
  lemma FollowingStepsShape(rs: seq<ChainResult>)
    requires Follows(IssueHooks(), rs, [AnalyzeStep, RespondStep])
    ensures IssueChainShape(rs)
  {
    FollowsTwo(IssueHooks(), rs, AnalyzeStep, RespondStep);
    if rs != [] {
      if Matches(IssueHooks(), rs[0], AnalyzeStep) {
        AnalyzeStepRecords(rs[0]);
      } else {
        RespondStepRecords(rs[0]);
      }
      if |rs| == 2 {
        AnalyzeStepRecords(rs[0]);
        RespondStepRecords(rs[1]);
      }
    }
  }

  lemma AnalyzeStepRecords(r: ChainResult)
    requires Matches(IssueHooks(), r, AnalyzeStep)
    ensures r.stepName == "initial_analysis" && r.extractedData == Some(AnalysisDataOf(r.response))
  {
  }

  lemma RespondStepRecords(r: ChainResult)
    requires Matches(IssueHooks(), r, RespondStep)
    ensures r.stepName == "generate_response" && r.extractedData.None?
  {
  }

  // ---------------------------------------------------------------- the final response

  /** Labels `', '.join` accepts when they are truthy: a list of strings. */
  predicate JoinableLabels(labels: Value) {
    Truthy(labels) ==> labels.List? && forall i :: 0 <= i < |labels.items| ==> labels.items[i].Str?
  }

  /**
   * The metadata lines; `None` where Python would raise on a value of the
   * wrong type: truthy labels that are not a list of strings, or a priority
   * or category that is not a string.
   */
  function Metadata(data: map<string, Value>): (r: Option<seq<string>>)
    ensures r.Some? <==>
      && Get(data, "priority", Str("medium")).Str? && Get(data, "category", Str("unknown")).Str?
      && JoinableLabels(Get(data, "labels", Null))
    ensures r.Some? ==> exists k :: 0 <= k < |r.value| && r.value[k] == "**Priority**: " + Title(Get(data, "priority", Str("medium")).s)
    ensures r.Some? ==> exists k :: 0 <= k < |r.value| && r.value[k] == "**Category**: " + Title(Get(data, "category", Str("unknown")).s)
  {
    var labels := Get(data, "labels", Null);
    var priority := Get(data, "priority", Str("medium"));
    var category := Get(data, "category", Str("unknown"));
    if !JoinableLabels(labels) then None
    else if !priority.Str? || !category.Str? then None
    else
      var labelLine := if Truthy(labels) then ["**Suggested Labels**: " + Join(Strings(labels), ", ")] else [];
      var lines := labelLine
        + ["**Priority**: " + Title(priority.s), "**Category**: " + Title(category.s)]
        + (if Truthy(Get(data, "needs_more_info", Null)) then ["**Status**: Needs more information"] else [])
        + (if Truthy(Get(data, "is_duplicate", Null)) then ["**Status**: Possible duplicate"] else []);
      assert lines[|labelLine|] == "**Priority**: " + Title(priority.s);
      assert lines[|labelLine| + 1] == "**Category**: " + Title(category.s);
      Some(lines)
  }

  /** Every list item of an encoded label list is a string. */
  lemma StrListItems(xs: seq<string>)
    ensures forall i :: 0 <= i < |StrList(xs).items| ==> StrList(xs).items[i].Str?
  {
  }

  /** The metadata of an extracted analysis is well typed and names its priority and category, title-cased. */
  lemma MetadataOfAnalysis(a: Analysis)
    ensures Metadata(ToDict(a)).Some?
    ensures exists k :: 0 <= k < |Metadata(ToDict(a)).value| && Metadata(ToDict(a)).value[k] == "**Priority**: " + Title(a.priority)
    ensures exists k :: 0 <= k < |Metadata(ToDict(a)).value| && Metadata(ToDict(a)).value[k] == "**Category**: " + Title(a.category)
  {
    StrListItems(a.labels);
  }

  /**
   * `format_final_response`: with fewer than two results, the chain's default;
   * otherwise the last answer, a rule, and the metadata block. `None` where
   * Python would raise.
   */
  function IssueFinalResponse(results: seq<ChainResult>): (r: Option<string>)
    ensures |results| < 2 ==> r == Some(FormatFinalResponse(results))
    ensures |results| >= 2 && r.Some? ==> StartsWith(r.value, results[|results| - 1].response)
    ensures |results| >= 2 ==> (r.Some? <==> Metadata(AnalysisDict(results)).Some?)
  {
    if |results| < 2 then Some(FormatFinalResponse(results))
    else
      match Metadata(AnalysisDict(results))
      case None => None
      case Some(lines) =>
        var parts := [results[|results| - 1].response, "\n---\n", "### Issue Metadata", Join(lines, "\n")];
        JoinStartsWithFirst(parts, "\n");
        Some(Join(parts, "\n"))
  }

  /** Every metadata line appears in the final comment. */
  lemma FinalResponseContainsLine(results: seq<ChainResult>, lines: seq<string>, k: nat)
    requires |results| >= 2 && Metadata(AnalysisDict(results)) == Some(lines) && k < |lines|
    ensures IssueFinalResponse(results).Some?
    ensures Contains(IssueFinalResponse(results).value, lines[k])
  {
    var block := Join(lines, "\n");
    var parts := [results[|results| - 1].response, "\n---\n", "### Issue Metadata", block];
    JoinContainsPart(lines, "\n", k);
    var j: nat :| SliceIs(block, j, lines[k]);
    JoinContainsPart(parts, "\n", 3);
    var i: nat :| SliceIs(Join(parts, "\n"), i, parts[3]);
    SliceIsTrans(Join(parts, "\n"), i, block, j, lines[k]);
  }

  /** When both steps ran, the comment names the priority and the category the analysis found. */
  lemma FinalResponseNamesPriority(results: seq<ChainResult>, a: Analysis)
    requires |results| >= 2 && AnalysisDict(results) == ToDict(a)
    ensures IssueFinalResponse(results).Some?
    ensures Contains(IssueFinalResponse(results).value, "**Priority**: " + Title(a.priority))
    ensures Contains(IssueFinalResponse(results).value, "**Category**: " + Title(a.category))
  {
    MetadataOfAnalysis(a);
    var lines := Metadata(ToDict(a)).value;
    var p :| 0 <= p < |lines| && lines[p] == "**Priority**: " + Title(a.priority);
    FinalResponseContainsLine(results, lines, p);
    var c :| 0 <= c < |lines| && lines[c] == "**Category**: " + Title(a.category);
    FinalResponseContainsLine(results, lines, c);
  }

  // ---------------------------------------------------------------- post-processing

  const ClosedOffTopic := CloseIssue(OffTopicClosedNotice)

  /** The writes `post_process` makes for an issue not yet marked: labels, comment, closing, then the marker. */
  function ChainPlan(repo: Option<RepositoryConfig>, data: map<string, Value>, final: string): (plan: seq<Call>)
    ensures |plan| > 0 && plan[|plan| - 1] == MarkAnalyzed
    ensures Strings(Get(data, "labels", List([]))) != [AnalyzedLabel] ==> forall i :: 0 <= i < |plan| - 1 ==> plan[i] != MarkAnalyzed
    ensures repo.None? ==> plan == [MarkAnalyzed]
    ensures var labels := Get(data, "labels", List([]));
      Strings(labels) != [AnalyzedLabel] ==>
        (AddIssueLabels(Strings(labels)) in plan
         <==> repo.Some? && SettingOn(repo.value, "apply_labels", true) && Truthy(labels))
    ensures PostIssueComment(Verbatim(final)) in plan <==> repo.Some? && SettingOn(repo.value, "post_analysis_comments", true)
    ensures ClosedOffTopic in plan
      <==> repo.Some? && SettingOn(repo.value, "auto_close_invalid", false) && Truthy(Get(data, "should_close", Bool(false)))
  {
    var labels := Get(data, "labels", List([]));
    var labelCall :=
      if repo.Some? && SettingOn(repo.value, "apply_labels", true) && Truthy(labels)
      then [AddIssueLabels(Strings(labels))] else [];
    var comment :=
      if repo.Some? && SettingOn(repo.value, "post_analysis_comments", true)
      then [PostIssueComment(Verbatim(final))] else [];
    var close :=
      if repo.Some? && SettingOn(repo.value, "auto_close_invalid", false) && Truthy(Get(data, "should_close", Bool(false)))
      then [ClosedOffTopic] else [];
    labelCall + comment + close + [MarkAnalyzed]
  }

  /** `labels_applied`: the suggested labels when they were applied, else an empty list. */
  function LabelsApplied(repo: Option<RepositoryConfig>, data: map<string, Value>): (v: Value)
    ensures var labels := Get(data, "labels", List([]));
      Strings(labels) != [AnalyzedLabel] ==>
        (Truthy(v) <==> AddIssueLabels(Strings(labels)) in ChainPlan(repo, data, ""))
    ensures Truthy(v) ==> v == Get(data, "labels", List([]))
  {
    var labels := Get(data, "labels", List([]));
    if repo.Some? && SettingOn(repo.value, "apply_labels", true) && Truthy(labels) then labels else List([])
  }

  /** `post_process`: an issue already marked is skipped; otherwise the plan is carried out until a write raises. */
  function PostProcess(existingLabels: seq<string>, repo: Option<RepositoryConfig>, results: seq<ChainResult>,
                       final: string, issueNumber: Value, failsAt: Option<nat>): (h: Handled)
    ensures AnalyzedLabel in existingLabels ==> h.calls == [] && StatusOf(h.reply) == "skipped"
    ensures AnalyzedLabel !in existingLabels ==> h.calls <= ChainPlan(repo, AnalysisDict(results), final)
    ensures StatusOf(h.reply) == "success" <==>
      AnalyzedLabel !in existingLabels && h.calls == ChainPlan(repo, AnalysisDict(results), final)
    ensures StatusOf(h.reply) in {"skipped", "success", "error"}
    ensures Strings(Get(AnalysisDict(results), "labels", List([]))) != [AnalyzedLabel] ==>
      (MarkAnalyzed in h.calls <==> StatusOf(h.reply) == "success")
  {
    if AnalyzedLabel in existingLabels then
      Handled([], Reply("skipped", map["reason" := Str("already analyzed")]))
    else
      var data := AnalysisDict(results);
      var plan := ChainPlan(repo, data, final);
      var e := Perform(plan, failsAt);
      var h :=
        if e.completed then
          Handled(e.applied, Reply("success", map[
            "issue_number" := issueNumber,
            "chain_steps" := Int(|results|),
            "labels_applied" := LabelsApplied(repo, data),
            "analysis_data" := Dict(data)]))
        else
          Handled(e.applied, Reply("error", map[]));
      if Strings(Get(data, "labels", List([]))) != [AnalyzedLabel] then
        MarkAppliedIffCompleted(plan, failsAt);
        h
      else h
  }

  /** What `handle` replies once the chain has run: an error if the model raised or formatting failed, else post-processing. */
  function Respond(existingLabels: seq<string>, repo: Option<RepositoryConfig>, o: Outcome,
                   issueNumber: Value, failsAt: Option<nat>): (h: Handled)
    ensures o.raised ==> h.calls == [] && StatusOf(h.reply) == "error"
    ensures !o.raised && IssueFinalResponse(o.state.results).Some? ==>
      h == PostProcess(existingLabels, repo, o.state.results, IssueFinalResponse(o.state.results).value, issueNumber, failsAt)
  {
    if o.raised then Handled([], Reply("error", map[]))
    else
      match IssueFinalResponse(o.state.results)
      case None => Handled([], Reply("error", map[]))
      case Some(final) => PostProcess(existingLabels, repo, o.state.results, final, issueNumber, failsAt)
  }

  /**
   * After a chain run of this handler the final response can always be
   * formatted, and the label list read back from the analysis is never the
   * marker on its own.
   */
  lemma ChainRunFormats(env: Env, action: string, st: State)
    requires env.hooks == IssueHooks() && st.results == []
    ensures var rs := Run(env, GetChainSteps(action), st).state.results;
      && IssueFinalResponse(rs).Some?
      && Strings(Get(AnalysisDict(rs), "labels", List([]))) != [AnalyzedLabel]
  {
    ChainResultsShape(env, action, st);
    ShapedResultsFormat(Run(env, GetChainSteps(action), st).state.results);
  }

  lemma ShapedResultsFormat(rs: seq<ChainResult>)
    requires IssueChainShape(rs)
    ensures IssueFinalResponse(rs).Some?
    ensures Strings(Get(AnalysisDict(rs), "labels", List([]))) != [AnalyzedLabel]
  {
    if rs != [] && rs[0].stepName == AnalyzeStep.name {
      var a := AnalysisOf(rs[0].response);
      AnalysisLabels(rs[0].response);
      StringsOfStrList(a.labels);
      assert Strings(Get(AnalysisDict(rs), "labels", List([]))) == a.labels;
      if |rs| >= 2 {
        FinalResponseNamesPriority(rs, a);
      }
    }
  }

  /**
   * For a chain run of this handler: the marker call is issued exactly when the
   * reply is a success, and a success carries out the whole plan for an
   * issue that was not yet marked. The chain runs before the marker is
   * checked, so a marked issue is still sent to the model; its reply is
   * `skipped` unless the model raised.
   */
  lemma RespondAfterChain(env: Env, action: string, st: State, existingLabels: seq<string>,
                          repo: Option<RepositoryConfig>, issueNumber: Value, failsAt: Option<nat>)
    requires env.hooks == IssueHooks() && st.results == []
    ensures var o := Run(env, GetChainSteps(action), st);
      var h := Respond(existingLabels, repo, o, issueNumber, failsAt);
      && (MarkAnalyzed in h.calls <==> StatusOf(h.reply) == "success")
      && (StatusOf(h.reply) == "success" ==>
            !o.raised && AnalyzedLabel !in existingLabels
            && h.calls == ChainPlan(repo, AnalysisDict(o.state.results), IssueFinalResponse(o.state.results).value))
      && (!o.raised && AnalyzedLabel in existingLabels ==> h.calls == [] && StatusOf(h.reply) == "skipped")
  {
    ChainRunFormats(env, action, st);
  }

  /**
   * `ChainedPromptHandler.handle` for this handler: no chain for any action
   * but `opened`; otherwise the chain runs over the prompt context of the
   * payload, through the loader, and its results are post-processed.
   */
  method Handle(action: string, payload: map<string, Value>, existingLabels: seq<string>, repo: Option<RepositoryConfig>,
                loader: PromptLoader, files: Files, render: Renderer, model: Model, failsAt: Option<nat>)
    returns (h: Handled)
    modifies loader
    ensures action != "opened" ==>
      h == Handled([], Reply("error", map["reason" := Str("no chain steps defined")])) && loader.cache == old(loader.cache)
    ensures action == "opened" ==>
      var o := Run(IssueEnv(loader.config.templates, files, render, model), GetChainSteps(action),
                   State([], CreatePromptContext("issues", payload), old(loader.cache)));
      var issueNumber := Field(Get(payload, "issue", Dict(map[])), "number");
      && h == Respond(existingLabels, repo, o, issueNumber, failsAt)
      && loader.cache == o.state.cache
  {
    var steps := GetChainSteps(action);
    if steps == [] {
      return Handled([], Reply("error", map["reason" := Str("no chain steps defined")]));
    }
    var context := CreatePromptContext("issues", payload);
    var results, ok := ExecuteChain(steps, context, Sequential, loader, files, render, IssueHooks(), model);
    ghost var o := Run(IssueEnv(loader.config.templates, files, render, model), steps, State([], context, old(loader.cache)));
    var issueNumber := Field(Get(payload, "issue", Dict(map[])), "number");
    if !ok {
      return Handled([], Reply("error", map[]));
    }
    var final := IssueFinalResponse(results);
    if final.None? {
      return Handled([], Reply("error", map[]));
    }
    h := PostProcess(existingLabels, repo, results, final.value, issueNumber, failsAt);
  }
}
