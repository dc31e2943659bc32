/**
 * The writes the handlers make to GitHub through their client, as data: a
 * handler plans an ordered list of calls, and running the plan stops at the
 * first call that raises, which turns the handler's reply into an error.
 * A call is "applied" once it was issued without raising: the client's
 * writes report a refusal by GitHub as `False` rather than raising, and the
 * handlers ignore that answer, so such a write counts as applied here too.
 */
module Actions {
  import opened Wrappers
  import opened Json

  /** The fixed and templated comment bodies; the markdown around the analysis is not modelled. */
  datatype Comment =
    | Verbatim(text: string)
    | IssueAnalysisNotice(analysis: string)
    | ReviewNotice(reviewer: string, analysis: string)
    | IssueClosedNotice
    | OffTopicClosedNotice

  datatype Call =
    | AddIssueLabels(labels: seq<string>)
    | PostIssueComment(comment: Comment)
    | CloseIssue(comment: Comment)
    | AddPrLabels(labels: seq<string>)
    | PostPrComment(comment: Comment)

  /** The label every issue handler adds last, once its analysis is done. */
  const AnalyzedLabel := "clide-analyzed"

  const MarkAnalyzed := AddIssueLabels([AnalyzedLabel])

  /** What a handler did: the GitHub writes it issued without raising, and its reply. */
  datatype Handled = Handled(calls: seq<Call>, reply: Value)

  /** What running a plan did: the calls issued without raising, and whether none raised. */
  datatype Execution = Execution(applied: seq<Call>, completed: bool)

  /** Runs `plan` when the call at index `failsAt` (if any) raises: the calls before it are issued, nothing after it is tried. */
  function Perform(plan: seq<Call>, failsAt: Option<nat>): (e: Execution)
    ensures e.applied <= plan
    ensures e.completed <==> e.applied == plan
    ensures e.completed <==> failsAt.None? || failsAt.value >= |plan|
  {
    if failsAt.Some? && failsAt.value < |plan| then Execution(plan[..failsAt.value], false)
    else Execution(plan, true)
  }

  /** When a plan ends by marking the issue analysed, the mark is issued exactly when no call of the plan raised. */
  lemma MarkAppliedIffCompleted(plan: seq<Call>, failsAt: Option<nat>)
    requires |plan| > 0 && plan[|plan| - 1] == MarkAnalyzed
    requires forall i :: 0 <= i < |plan| - 1 ==> plan[i] != MarkAnalyzed
    ensures MarkAnalyzed in Perform(plan, failsAt).applied <==> Perform(plan, failsAt).completed
  {
    var e := Perform(plan, failsAt);
    if !e.completed {
      forall i | 0 <= i < |e.applied| ensures e.applied[i] != MarkAnalyzed {
        assert e.applied[i] == plan[i];
      }
    }
  }
}
