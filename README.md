# HLS webhook handler: decision logic

This project models the decision logic of the HLS GitHub webhook handler. That logic sits between an inbound GitHub event and the writes made back to GitHub. The model covers these pieces:

- **Entry point.** The webhook entry script parses the payload and checks the `sha256=` signature. It then checks that the repository is configured and the event enabled, and only after that hands the event to the processor.
- **Configuration.** Repository lookup, the event-enabled check, and recursive `${VAR}` substitution.
- **Prompt loading.** The prompt loader: template path fallback, and a cache dictionary that is updated in place.
- **Response extractors.** Keyword and regular-expression heuristics over model text.
- **Handlers.** The per-event action filters, the handler registry, and the plain issue handler's sequence of writes.
- **Chain runner.** Runs a list of prompt steps in order, threading an accumulated context through them.
- **Chained issue handler.** Its two steps, its analysis extractor, its final response and its post-processing writes.
- **Invitations.** The invitation policy and the loop that acts on pending invitations.
- **Backfill.** A periodic job that finds and replays issues the webhook missed.

Everything external is a parameter. This covers:

- the language model, as a function from prompt and history to an answer or a failure;
- GitHub's writes, as a list of planned calls, where the index of a failing call, if any, is an input;
- the issue listing and the pending-invitation fetch, each of which may raise;
- Jinja rendering, `fnmatch`, HMAC-SHA256;
- file reads, environment variables and the clock.

Modules, one per source file plus three shared ones:

| file | module | models |
|---|---|---|
| wrappers.dfy | Wrappers | `Option` |
| text.dfy | Text | ASCII case mapping, splitting on a separator, and a small regular-expression matcher (`\b`, literals, `.`) |
| json.dfy | Json | JSON values, Python truthiness, `dict.get` |
| config.dfy | Config | hls/src/hsl_handler/config.py |
| prompts.dfy | Prompts | hls/src/hsl_handler/prompts.py (`PromptLoader` is a class with its `cache` field) |
| extractors.dfy | Extractors | the text heuristics of hls/src/hsl_handler/handlers.py |
| actions.dfy | Actions | GitHub writes, and running a plan of them until one fails |
| handlers.dfy | Handlers | registry, action filters and `IssueHandler.handle` |
| invitations.dfy | Invitations | `InvitationHandler` |
| chain.dfy | Chain | hls/src/hsl_handler/chained_handlers.py |
| chained_issue.dfy | ChainedIssue | hls/src/hsl_handler/chained_issue_handler.py |
| dispatch.dfy | Dispatch | webhook_dispatch.py |
| backfill.dfy | Backfill | scripts/analyze_missed_issues.py |

The loops in the source that update state step by step each become a `method` with a `while` loop, proved against a specification function. They are:

- `_execute_sequential`;
- `_build_conversation_context`;
- `extract_labels_from_analysis`;
- `extract_analysis_data`;
- `process_invitations`;
- the search and counting loops of the backfill script.

The prompt loader updates its cache in place, so it is a class whose methods state the new cache.

## Model

| member | source | states |
|---|---|---|
| Config.NewRepositoryConfig | hls/src/hsl_handler/config.py:33-41 | a new repository is enabled, has no local path and has empty settings |
| Config.DefaultFeatures | hls/src/hsl_handler/config.py:67-74 | signature validation, async processing and rate limiting default on, payload logging off |
| Config.DefaultCronAnalysis | hls/src/hsl_handler/config.py:76-85 | backfill defaults: 30 minutes, 10 issues per repository, 2 s delay, label `clide-analyzed` |
| Config.DefaultInvitationCriteria | hls/src/hsl_handler/config.py:87-94 | default criteria accept every repository pattern (`*`) with no restriction or exclusion |
| Config.FindRepository | hls/src/hsl_handler/config.py:161-166 | `None` iff no repository has the name; otherwise the first one that has it |
| Config.IsEventEnabled | hls/src/hsl_handler/config.py:168-173 | true iff the first repository with the name lists the event |
| Config.EventEnabledIgnoresEnabledFlag | hls/src/hsl_handler/config.py:168-173 | changing any repository's `enabled` flag never changes whether an event is enabled |
| Config.SubstituteEnvVars | hls/src/hsl_handler/config.py:149-159 | a `${NAME}` string becomes the value of the variable `NAME` when it is set and is returned unchanged when it is not, a dict keeps its keys and a list its length, and every other value is returned unchanged |
| Config.SubstitutePreservesShape | hls/src/hsl_handler/config.py:151-154 | at every depth, substitution keeps dict keys, list lengths and the kind of each value |
| Config.SubstituteIsIdentityOtherwise | hls/src/hsl_handler/config.py:155-159 | a value with no placeholder naming a set variable comes back unchanged |
| Config.NothingToSubstituteWithoutEnv | hls/src/hsl_handler/config.py:155-157 | with an empty environment, every value comes back unchanged |
| Prompts.GetPromptPath | hls/src/hsl_handler/prompts.py:31-42 | the action's template when present and non-empty, else the non-empty `default` one, else `None` |
| Prompts.CacheKeyInjective | hls/src/hsl_handler/prompts.py:52-53 | `event:action` keys identify the pair when the event type holds no `:` |
| Prompts.Lookup | hls/src/hsl_handler/prompts.py:44-77 | no path gives `None`; a cache hit returns the cached text; otherwise the file is read |
| Prompts.CacheAfter | hls/src/hsl_handler/prompts.py:64-70 | only the `event:action` entry may be added; every other entry is kept; nothing changes without `use_cache` |
| Prompts.LookupIsTransparent | hls/src/hsl_handler/prompts.py:44-77 | with a cache that agrees with the files, loading returns what a fresh read returns, and the cache still agrees |
| Prompts.RenderLoaded | hls/src/hsl_handler/prompts.py:79-96 | `None` iff no template or an empty one; otherwise the rendered text, or the raw template when rendering fails |
| Prompts.PromptLoader.constructor | hls/src/hsl_handler/prompts.py:17-29 | a new loader has an empty cache |
| Prompts.PromptLoader.LoadPrompt | hls/src/hsl_handler/prompts.py:44-77 | result is `Lookup` on the old cache; the new cache is `CacheAfter` |
| Prompts.PromptLoader.RenderPrompt | hls/src/hsl_handler/prompts.py:79-96 | result renders the cached load; the cache is updated as by `load_prompt` |
| Prompts.PromptLoader.ClearCache | hls/src/hsl_handler/prompts.py:98-101 | the cache is empty afterwards |
| Prompts.CreatePromptContext | hls/src/hsl_handler/prompts.py:120-142 | the keys are exactly `event_type`, `payload`, `repository` and `sender`, plus the event's own sections; each section is the payload's value or `{}` |
| Extractors.LabelsFromMembership | hls/src/hsl_handler/handlers.py:45-72 | a label is produced iff one of its patterns matches the text |
| Extractors.SuggestedLabelsMembership | hls/src/hsl_handler/handlers.py:45-72 | a label is suggested iff one of its patterns occurs in the lowercased analysis |
| Extractors.SuggestedLabelsDistinct | hls/src/hsl_handler/handlers.py:45-72 | the suggestions are duplicate-free, at most 14, and each is one of the 14 fixed labels |
| Extractors.LabelRulesDistinct | hls/src/hsl_handler/handlers.py:49-64 | the 14 label names are pairwise different |
| Extractors.ExtractLabelsFromAnalysis | hls/src/hsl_handler/handlers.py:45-72 | the loop returns exactly the suggested labels, in table order |
| Extractors.ShouldCloseIssue | hls/src/hsl_handler/handlers.py:74-76 | true iff the case-sensitive marker `RECOMMENDATION: CLOSE ISSUE` occurs |
| Extractors.SizeLabel | hls/src/hsl_handler/handlers.py:300-307 | small below 50 changed lines, medium below 200, large otherwise |
| Extractors.TypeLabel | hls/src/hsl_handler/handlers.py:309-320 | at most one type label, chosen by precedence: bug/fix, then feature/enhancement, then refactor, then documentation/docs |
| Extractors.ExtractPrLabels | hls/src/hsl_handler/handlers.py:296-321 | the size label comes first, then at most one type label, so the list has 1 or 2 entries |
| Actions.Perform | hls/src/hsl_handler/handlers.py:143-179 | the calls issued without raising are a prefix of the plan; the run completes iff no call raises |
| Actions.MarkAppliedIffCompleted | hls/src/hsl_handler/handlers.py:178-179 | when the marker is only the last call of the plan, it is issued iff no write raised |
| Handlers.Registry | hls/src/hsl_handler/handlers.py:1342-1379 | the registry has the declared keys; `issues` goes to the chained handler; every other entry is as declared |
| Handlers.RouteOf | hls/src/hsl_handler/handlers.py:82-1120 | which actions each handler ignores before touching any client: issues `opened`; PRs `opened`/`synchronize` (prompts `new_pr`/`pr_updated`); workflows `completed` with `failure`; releases `published`/`created`/`edited`; stars; commit comments; pushes without commits |
| Handlers.SuggestionsAreNotTheMarker | hls/src/hsl_handler/handlers.py:45-72 | `clide-analyzed` is never a suggested label |
| Handlers.IssuePlan | hls/src/hsl_handler/handlers.py:138-179 | optional labels, comment and close, each iff its setting (with its default) and condition hold, then the marker as the only and last marker write |
| Handlers.IssueLabelsReportedAsWritten | hls/src/hsl_handler/handlers.py:187 | non-empty only when the repository sets `apply_labels` explicitly |
| Handlers.IssueLabelsReported | hls/src/hsl_handler/handlers.py:139-143 | the reported labels are non-empty iff the plan applies them |
| Handlers.LabelsReportMissesDefault | hls/src/hsl_handler/handlers.py:140-187 | a default repository gets the `bug` label applied, yet the reply as written reports `[]` |
| Handlers.IssueHandle | hls/src/hsl_handler/handlers.py:82-192 | ignored unless `opened`, skipped when already marked, and never a write in either case; an `outputs.directories` without `issues` gives error with no writes; success iff the marker call was issued without raising; the writes are a prefix of the plan; `labels_applied` is the as-written report, which is the applied labels whenever `apply_labels` is set |
| Handlers.DefaultOutputsNeverWrite | hls/src/hsl_handler/handlers.py:130-131 | under the default output settings (`directories` is `{}`, config.py:54) the plain issue handler never writes to GitHub and never succeeds |
| Invitations.AnyMatch | hls/src/hsl_handler/handlers.py:1278-1281 | true iff some pattern matches |
| Invitations.EvaluateInvitation | hls/src/hsl_handler/handlers.py:1231-1276 | decline iff an exclusion matches (checked first); accept iff not declined, some pattern matches, and the org and user restrictions hold; otherwise no match |
| Invitations.StepKeepsCounters | hls/src/hsl_handler/handlers.py:1170-1216 | one invitation keeps the counters equal to the entries that record them, and adds one entry unless its decline was refused |
| Invitations.TallyConsistent | hls/src/hsl_handler/handlers.py:1147-1229 | accepted and declined count only successful calls; entries plus refused declines equal the invitations |
| Invitations.ProcessInvitations | hls/src/hsl_handler/handlers.py:1145-1229 | disabled: processed 0 and no client call; enabled with a fetch that raises: no report, only the fetch call; status `success` iff enabled and the fetch returned; then the loop's report and calls equal the tally |
| Chain.EvaluateCondition | hls/src/hsl_handler/chained_handlers.py:198-212 | an unknown condition is true; a known one is its hook's answer |
| Chain.ExtractData | hls/src/hsl_handler/chained_handlers.py:214-223 | an unknown extractor gives `{}`; a known one gives its hook's result |
| Chain.SplitPromptKey | hls/src/hsl_handler/chained_handlers.py:105-109 | without a dot: (key, `default`); with one: the text before the first dot, and the second segment |
| Chain.SplitPromptKeyOfJoined | hls/src/hsl_handler/chained_handlers.py:105-109 | `event.action` splits back into its parts |
| Chain.HistoryHeaders | hls/src/hsl_handler/chained_handlers.py:177-196 | the history has one `Step i: name` header per result, numbered from 1 in order |
| Chain.BuildConversationContext | hls/src/hsl_handler/chained_handlers.py:177-196 | the loop builds exactly the history of the results |
| Chain.Absorb | hls/src/hsl_handler/chained_handlers.py:132-154 | appends the result; the context gains `<name>_response` and the extracted keys, and gains `<name>_data` only for non-empty data |
| Chain.RunStep | hls/src/hsl_handler/chained_handlers.py:90-154 | at most one result, appended after the old ones; a false condition leaves the state as it was; a prompt that renders to `None` or `""` adds nothing and changes only the prompt cache; with a prompt, the step raises iff the model call does, and otherwise the new state is the old one with the model's answer to that prompt and history, and its extracted data, absorbed |
| Chain.RunResultsFollowSteps | hls/src/hsl_handler/chained_handlers.py:80-156 | results extend the old ones, at most one per step, and match the steps in order |
| Chain.ExecuteSequential | hls/src/hsl_handler/chained_handlers.py:80-156 | the loop's results, and the loader's new cache, are those of the step-by-step run |
| Chain.ExecuteChain | hls/src/hsl_handler/chained_handlers.py:60-78 | sequential, parallel and conditional all give the sequential run's results |
| Chain.FormatFinalResponse | hls/src/hsl_handler/chained_handlers.py:225-235 | the no-results message when there are no results, else the last response |
| ChainedIssue.GetChainSteps | hls/src/hsl_handler/chained_issue_handler.py:22-43 | no steps unless `opened`; otherwise two differently named steps, with no conditions and an extractor only on the first |
| ChainedIssue.AnalyzeStepResolves | hls/src/hsl_handler/chained_issue_handler.py:27-33 | the first step's prompt resolves to issues/analyze |
| ChainedIssue.RespondStepResolves | hls/src/hsl_handler/chained_issue_handler.py:34-40 | the second step's prompt resolves to issues/respond |
| ChainedIssue.Priority | hls/src/hsl_handler/chained_issue_handler.py:72-75 | high iff a high pattern matches; low iff no high pattern matches but a low one does; medium otherwise |
| ChainedIssue.Category | hls/src/hsl_handler/chained_issue_handler.py:78-85 | the first plain substring hit among bug, feature/enhancement, question, documentation; else unknown |
| ChainedIssue.AnalysisLabels | hls/src/hsl_handler/chained_issue_handler.py:58-98 | content labels in table order, then exactly one `priority-` label, with no duplicates |
| ChainedIssue.AnalysisLabelMembership | hls/src/hsl_handler/chained_issue_handler.py:58-98 | a label is present iff its pattern matches, or it is the priority label |
| ChainedIssue.ExtractAnalysisData | hls/src/hsl_handler/chained_issue_handler.py:45-100 | the loop returns the six-key analysis of the response |
| ChainedIssue.ChainResultsShape | hls/src/hsl_handler/chained_issue_handler.py:22-43 | any run of the issue chain gives at most the analysis result, then the response result |
| ChainedIssue.AnalyzeStepRecords | hls/src/hsl_handler/chained_handlers.py:132-147 | the analysis step's result carries the analysis of its own response |
| ChainedIssue.RespondStepRecords | hls/src/hsl_handler/chained_handlers.py:132-147 | the response step's result carries no extracted data |
| ChainedIssue.Metadata | hls/src/hsl_handler/chained_issue_handler.py:108-135 | the lines can be formatted iff priority and category are strings and truthy labels are a list of strings; they then include the Priority and the Category line, title-cased |
| ChainedIssue.MetadataOfAnalysis | hls/src/hsl_handler/chained_issue_handler.py:108-135 | extracted analysis data always formats, with a Priority line and a Category line naming its priority and category |
| ChainedIssue.IssueFinalResponse | hls/src/hsl_handler/chained_issue_handler.py:102-137 | fewer than 2 results fall back to the base behaviour; otherwise the text starts with the last response |
| ChainedIssue.FinalResponseContainsLine | hls/src/hsl_handler/chained_issue_handler.py:127-135 | every metadata line appears in the final comment |
| ChainedIssue.FinalResponseNamesPriority | hls/src/hsl_handler/chained_issue_handler.py:102-137 | with 2 or more results, the text names the first result's priority and category |
| ChainedIssue.ChainPlan | hls/src/hsl_handler/chained_issue_handler.py:199-227 | labels, comment and close each iff their setting and data hold; the marker is the last write |
| ChainedIssue.LabelsApplied | hls/src/hsl_handler/chained_issue_handler.py:202-207 | labels are reported only when applied, and then they are the analysis labels |
| ChainedIssue.PostProcess | hls/src/hsl_handler/chained_issue_handler.py:175-236 | skipped with no writes when already marked; the writes are a prefix of the plan; success iff no write raised; the marker call is issued iff success |
| ChainedIssue.Respond | hls/src/hsl_handler/chained_handlers.py:254-265 | an error inside the chain gives status error and no writes; otherwise post-processing of the final response |
| ChainedIssue.RespondAfterChain | hls/src/hsl_handler/chained_handlers.py:237-265 | after a chain run, the marker call is issued iff the reply is success |
| ChainedIssue.Handle | hls/src/hsl_handler/chained_handlers.py:237-265 | no steps gives error `no chain steps defined` with the cache untouched; otherwise the reply follows the run and the loader's cache is the run's cache |
| Dispatch.VerifySignature | webhook_dispatch.py:34-45 | false without the `sha256=` prefix; raises only on a non-ASCII prefixed signature; true iff it equals `sha256=` plus the hex HMAC of the body |
| Dispatch.SignedBodyAccepted | webhook_dispatch.py:34-45 | a correctly signed body passes the signature check |
| Dispatch.ProcessWebhookDirectly | webhook_dispatch.py:64-94 | the result is wrapped as processed, or the exception as error, with the request id |
| Dispatch.Dispatch | webhook_dispatch.py:96-167 | the processor runs iff the JSON parses, the signature check passes, the repository is configured and the event is enabled; invalid JSON and a missing signature exit 1; an unconfigured repository or a disabled event prints one `ignored` reply and exits 0 |
| Dispatch.SignatureIgnoredWhenDisabled | webhook_dispatch.py:119-132 | with validation off, the signature header changes nothing |
| Dispatch.BadSignatureRejected | webhook_dispatch.py:126-129 | with validation on, a wrong signature exits 1 before the repository checks, and the processor never runs |
| Dispatch.DispatchIgnoresEnabledFlag | webhook_dispatch.py:134-148 | a repository's `enabled` flag never changes the outcome |
| Backfill.FilterMembership | scripts/analyze_missed_issues.py:72-83 | an issue passes iff it is listed, old enough, not a PR, and not marked analyzed |
| Backfill.SelectedIsCappedFilter | scripts/analyze_missed_issues.py:67-101 | at most `max_issues_per_repo` issues, each eligible; below the cap, every eligible issue |
| Backfill.FindUnanalyzedIssues | scripts/analyze_missed_issues.py:50-115 | the counting loop returns the data of the first `cap` eligible issues in order, and `[]` when the search raised |
| Backfill.PayloadNamesRepository | scripts/analyze_missed_issues.py:121-135 | an `opened` payload with owner and name split from `owner/name`, and the author as sender |
| Backfill.ProcessMissedIssue | scripts/analyze_missed_issues.py:117-175 | `Some(true)` iff the payload builds and the processor returned status `success`; other exceptions give `Some(false)`; data that is not an object or has no `number` raises again from the handler (`None`) |
| Backfill.ReplayDependsOnProcessorOnly | scripts/analyze_missed_issues.py:121-175 | the script's own issue data never raises: it builds a payload and the processor alone decides the outcome |
| Backfill.OutcomesCount | scripts/analyze_missed_issues.py:203-222 | per repository, processed equals found, and successes plus errors equal processed |
| Backfill.ReplayFound | scripts/analyze_missed_issues.py:212-225 | the inner loop's counters and error numbers are the repository's outcomes |
| Backfill.SummaryTotals | scripts/analyze_missed_issues.py:180-227 | total processed equals total found; successes never exceed it; `total_repos` counts the visited repositories |
| Backfill.SummaryReportsVisited | scripts/analyze_missed_issues.py:188-196 | exactly the enabled repositories that list `issues` are reported |
| Backfill.SummaryRecordsRepository | scripts/analyze_missed_issues.py:203-227 | a uniquely named visited repository reports its own outcomes |
| Backfill.AnalyzeAllRepositories | scripts/analyze_missed_issues.py:177-229 | the loop's summary is the specification's summary |

## Left out

- Strings are sequences of characters. Lower-casing, title-casing and the regular-expression `\w` cover ASCII only; Unicode case mapping and Unicode word characters are not modelled.
- Regular expressions are the few shapes the extractors use: literals, `.` (anything but a newline) and `\b`. Python's `re` engine is not modelled.
- Jinja rendering, `fnmatch`, HMAC-SHA256, JSON parsing, file reads, environment variables and the clock are all parameters. The listing, the processor and the language model are too.
- `clients.py` is not part of this model. The model does not assume the model call succeeds, because the handlers pass `working_directory` to it.
- Network, subprocess, logging, `asyncio.sleep` and output files are not modelled. This covers analysis files, `save_chain_results` and the chain metadata's `timestamp`.
- Exception messages are not modelled. An unexpected exception's text is a parameter of `Dispatch.Dispatch`; elsewhere a raised call gives status `error` with no fixed text.
- Malformed payload shapes are not modelled. The handlers receive the fields they read as typed inputs, such as label names or a PR's line counts. Dispatch does model a payload, or a `repository`, that is not an object.
- Actions.Perform: a write that GitHub refuses is not modelled as failing. The client's write methods catch `GithubException` and return `False` (hls/src/hsl_handler/clients.py:204-247), and the handlers ignore that answer; such a write counts as issued, and the reply stays `success`.
- Backfill.ReplayFound: it requires every found item to be an object with `number` and `user`, which is all `find_unanalyzed_issues` returns (`Backfill.FoundIn` states it). The run raising out of `analyze_all_repositories` on other data is not modelled; `Backfill.ProcessMissedIssue` does model that raise.
- Invitations.ProcessInvitations: the fetched invitations are an input, `None` when the fetch raises. The `GitHubClient` in hls/src/hsl_handler/clients.py defines no `get_user_repository_invitations`, so with that client the fetch always raises. The replies for a disabled feature and for no invitations have zero counters and no entries, where the source's dictionaries leave those keys out.
- Comment bodies are named constants (`Actions.Comment`). The markdown texts are not modelled.
- The conversation history is a list of parts: heading, step headers, bodies, extracted data and rules. The exact markdown rendering is not modelled.
- `list_available_prompts`, `_setup_new_repository`, the post-acceptance setup and the remaining handlers' post-analysis writes are left out. They are file and subprocess orchestration, or writes of the same shape as the issue handler's.
- The webhook processor is not part of this model. Delivery-id deduplication and background queues do not appear in the modelled files either.
- Backfill.FindUnanalyzedIssues: timestamps are integers on one clock. `created_at`/`updated_at` are left out of the issue data. The cutoff is given directly, not computed from `now` and the age.
- Backfill.AnalyzeAllRepositories: the processor and the listing are functions of their arguments. Each issue's answer therefore depends on the repository and the payload, not on when it is asked. The totals are added once per repository, after its inner loop, not once per issue; nothing reads them in between.
- The backfill script's `run` and dry-run mode are not modelled: they only log what the modelled functions return.
- Chain.RunStep: the condition and extractor hooks are total functions, so only the model call can make a step raise. In the source, a hook that raises, or a configured name that is not a callable attribute, also ends the chain with status `error` (hls/src/hsl_handler/chained_handlers.py:207-220, 263-265).
- Handlers.IssueHandle: the analysis file write is taken to succeed once `outputs.directories` has an `issues` entry; a failing file write is not modelled.
- ChainedIssue.Metadata: labels that are not a list count as a formatting failure. Python would join a string's characters.
- The order of a Python `list(set(...))` is modelled as table order.

## Findings

| source | as written | input that shows it | evidently intended | confidence | as-written member | corrected member |
|---|---|---|---|---|---|---|
| hls/src/hsl_handler/handlers.py:187 | `labels_applied` reads `apply_labels` with no default, so it is `[]` when the key is unset | a repository with empty `settings`, and an analysis that says "bug": the `bug` label is applied, yet `labels_applied` is `[]` | read `apply_labels` with the same default (`True`) as the labelling step at line 140 | not executed | Handlers.IssueLabelsReportedAsWritten (shown by Handlers.LabelsReportMissesDefault) | Handlers.IssueLabelsReported |
