/**
 * The chained-prompt runner of hls/src/hsl_handler/chained_handlers.py: a
 * loop over chain steps that checks each step's condition, renders its
 * prompt through the loader, asks the model (handing it the earlier results
 * as conversation history), extracts data from the answer and threads
 * everything into an accumulated context.
 *
 * The model is a function from prompt and history to an answer, `None` where
 * the call raises. The handler's condition and extraction methods, looked up
 * by name, are maps from name to function. The conversation history is kept
 * as its list of parts; rendering it to markdown text is not modelled.
 */
module Chain {
  import opened Wrappers
  import opened Text
  import opened Json
  import opened Prompts

  datatype ChainType = Sequential | Parallel | Conditional

  datatype ChainStep = ChainStep(
    name: string,
    promptKey: string,
    extractFunc: Option<string>,
    conditionFunc: Option<string>,
    saveResponse: bool)

  /** A result; of its metadata only the prompt key is kept. */
  datatype ChainResult = ChainResult(
    stepName: string,
    response: string,
    extractedData: Option<map<string, Value>>,
    promptKey: string)

  type Context = map<string, Value>

  /** One entry of `context_parts` in `_build_conversation_context`. */
  datatype HistoryPart =
    | Heading
    | StepHeader(number: nat, stepName: string)
    | Body(text: string)
    | ExtractedData(data: map<string, Value>)
    | Rule

  type Condition = (Context, seq<ChainResult>) -> bool
  type Extractor = string -> map<string, Value>

  /** The handler's methods that a step may name as its condition or extractor. */
  datatype Hooks = Hooks(conditions: map<string, Condition>, extractors: map<string, Extractor>)

  /** The model: rendered prompt and conversation history to an answer, `None` when the call raises. */
  type Model = (string, Option<seq<HistoryPart>>) -> Option<string>

  /** Everything the loop consults besides its own state. */
  datatype Env = Env(
    templates: map<string, map<string, string>>,
    files: Files,
    render: Renderer,
    hooks: Hooks,
    model: Model)

  // ---------------------------------------------------------------- hooks and prompt keys

  /** An optional method name that is set: Python skips `None` and `""` alike. */
  predicate Named(name: Option<string>) {
    name.Some? && name.value != ""
  }

  /** `_evaluate_condition`: an unknown condition lets the step run. */
  function EvaluateCondition(hooks: Hooks, name: string, ctx: Context, results: seq<ChainResult>): (b: bool)
    ensures name !in hooks.conditions ==> b
    ensures name in hooks.conditions ==> b == hooks.conditions[name](ctx, results)
  {
    if name in hooks.conditions then hooks.conditions[name](ctx, results) else true
  }

  /** `_extract_data`: an unknown extractor yields no data. */
  function ExtractData(hooks: Hooks, name: string, response: string): (d: map<string, Value>)
    ensures name !in hooks.extractors ==> d == map[]
    ensures name in hooks.extractors ==> d == hooks.extractors[name](response)
  {
    if name in hooks.extractors then hooks.extractors[name](response) else map[]
  }

  /** The template a prompt key names: the text before the first `.`, and the second segment or `"default"`. */
  function SplitPromptKey(key: string): (r: (string, string))
    ensures '.' !in key ==> r == (key, "default")
    ensures '.' in key ==> r.0 + "." <= key && '.' !in r.0 && '.' !in r.1
  {
    if '.' in key then (FirstField(key, '.'), SecondField(key, '.'))
    else (key, "default")
  }

  /** A key written `event.action`, with neither part holding a dot, names exactly that template. */
  lemma SplitPromptKeyOfJoined(eventType: string, action: string)
    requires '.' !in eventType && '.' !in action
    ensures SplitPromptKey(eventType + "." + action) == (eventType, action)
  {
    var key := eventType + "." + action;
    assert key == eventType + ['.'] + action;
    FirstFieldOfJoined(eventType, action, '.');
    SecondFieldOfJoined(eventType, action, '.');
  }

  // ---------------------------------------------------------------- conversation history

  /** The parts one earlier result contributes, numbered `number`. */
  function HistoryBlock(number: nat, r: ChainResult): seq<HistoryPart> {
    [StepHeader(number, r.stepName), Body(r.response)]
      + (if r.extractedData.Some? && r.extractedData.value != map[] then [ExtractedData(r.extractedData.value)] else [])
      + [Rule]
  }

  /** The blocks of all results, numbered from 1. */
  function Blocks(results: seq<ChainResult>): seq<HistoryPart> {
    if results == [] then []
    else Blocks(results[..|results| - 1]) + HistoryBlock(|results|, results[|results| - 1])
  }

  /** What `_build_conversation_context` lays out: nothing for no results, else a heading and one block per result. */
  function HistoryOf(results: seq<ChainResult>): seq<HistoryPart> {
    if results == [] then [] else [Heading] + Blocks(results)
  }

  /** The step headers among some parts, as (number, step name) pairs in order. */
  function Headers(parts: seq<HistoryPart>): seq<(nat, string)> {
    if parts == [] then []
    else
      var p := parts[|parts| - 1];
      Headers(parts[..|parts| - 1]) + (if p.StepHeader? then [(p.number, p.stepName)] else [])
  }

  lemma {:induction false} HeadersAppend(a: seq<HistoryPart>, b: seq<HistoryPart>)
    ensures Headers(a + b) == Headers(a) + Headers(b)
    decreases |b|
  {
    if b == [] {
      assert a + b == a;
    } else {
      var last := |b| - 1;
      assert (a + b)[..|a + b| - 1] == a + b[..last];
      assert (a + b)[|a + b| - 1] == b[last];
      HeadersAppend(a, b[..last]);
    }
  }

  /** The history names every earlier result once, in order, numbered from 1. */
  lemma {:induction false} HistoryHeaders(results: seq<ChainResult>)
    ensures Headers(HistoryOf(results)) == seq(|results|, i requires 0 <= i < |results| => (i + 1, results[i].stepName))
  {
    BlocksHeaders(results);
    if results != [] {
      HeadersAppend([Heading], Blocks(results));
      assert Headers([Heading]) == [] by {
        assert [Heading][..0] == [];
      }
    }
  }

  lemma {:induction false} BlocksHeaders(results: seq<ChainResult>)
    ensures Headers(Blocks(results)) == seq(|results|, i requires 0 <= i < |results| => (i + 1, results[i].stepName))
  {
    if results != [] {
      var n := |results|;
      var front := results[..n - 1];
      BlocksHeaders(front);
      var block := HistoryBlock(n, results[n - 1]);
      HeadersAppend(Blocks(front), block);
      var tail := if results[n - 1].extractedData.Some? && results[n - 1].extractedData.value != map[]
                  then [ExtractedData(results[n - 1].extractedData.value)] else [];
      assert block == [StepHeader(n, results[n - 1].stepName)] + ([Body(results[n - 1].response)] + tail + [Rule]);
      HeadersAppend([StepHeader(n, results[n - 1].stepName)], [Body(results[n - 1].response)] + tail + [Rule]);
      HeadersOfPlain([Body(results[n - 1].response)] + tail + [Rule]);
      assert Headers([StepHeader(n, results[n - 1].stepName)]) == [(n, results[n - 1].stepName)] by {
        assert [StepHeader(n, results[n - 1].stepName)][..0] == [];
      }
    }
  }

  /** Parts with no step header contribute no header. */
  lemma {:induction false} HeadersOfPlain(parts: seq<HistoryPart>)
    requires forall i :: 0 <= i < |parts| ==> !parts[i].StepHeader?
    ensures Headers(parts) == []
  {
    if parts != [] {
      HeadersOfPlain(parts[..|parts| - 1]);
    }
  }

  /** `_build_conversation_context`: appends a heading, then each result's block, in order. */
  method BuildConversationContext(results: seq<ChainResult>) returns (parts: seq<HistoryPart>)
    ensures parts == HistoryOf(results)
  {
    if results == [] {
      return [];
    }
    parts := [Heading];
    var i := 0;
    while i < |results|
      invariant 0 <= i <= |results|
      invariant parts == [Heading] + Blocks(results[..i])
    {
      assert results[..i + 1][..i] == results[..i];
      var r := results[i];
      parts := parts + [StepHeader(i + 1, r.stepName)];
      parts := parts + [Body(r.response)];
      if r.extractedData.Some? && r.extractedData.value != map[] {
        parts := parts + [ExtractedData(r.extractedData.value)];
      }
      parts := parts + [Rule];
      i := i + 1;
    }
    assert results[..i] == results;
  }

  /** The history handed to the model: none before the first result. */
  function ConversationHistory(results: seq<ChainResult>): Option<seq<HistoryPart>> {
    if results == [] then None else Some(HistoryOf(results))
  }

  // ---------------------------------------------------------------- one step

  datatype State = State(results: seq<ChainResult>, context: Context, cache: map<string, string>)

  /** The state after the loop ran, and whether a model call raised (which ends the loop). */
  datatype Outcome = Outcome(state: State, raised: bool)

  /** What a step that ran adds: its result, its answer and data in the context. */
  function Absorb(step: ChainStep, response: string, data: Option<map<string, Value>>, st: State): (r: State)
    ensures r.results == st.results + [ChainResult(step.name, response, data, step.promptKey)]
    ensures r.cache == st.cache
    ensures var extracted := if data.Some? then data.value else map[];
      && r.context.Keys == st.context.Keys + extracted.Keys + {step.name + "_response"}
                           + (if extracted != map[] then {step.name + "_data"} else {})
      && r.context[step.name + "_response"] == Str(response)
      && (extracted != map[] ==> r.context[step.name + "_data"] == Dict(extracted))
      && (forall k :: k in extracted && k != step.name + "_response" && k != step.name + "_data" ==> r.context[k] == extracted[k])
      && (forall k :: k in st.context && k !in extracted && k != step.name + "_response" && k != step.name + "_data"
            ==> r.context[k] == st.context[k])
  {
    var merged := if data.Some? then st.context + data.value else st.context;
    var withResponse := merged[step.name + "_response" := Str(response)];
    var ctx := if data.Some? && data.value != map[] then withResponse[step.name + "_data" := Dict(data.value)] else withResponse;
    State(st.results + [ChainResult(step.name, response, data, step.promptKey)], ctx, st.cache)
  }

  /** The data a step's extractor gives for an answer, if the step names one. */
  function ExtractedFor(hooks: Hooks, step: ChainStep, response: string): Option<map<string, Value>> {
    if Named(step.extractFunc) then Some(ExtractData(hooks, step.extractFunc.value, response)) else None
  }

  /** The step's condition lets it run: it names no condition, or its condition holds. */
  predicate ConditionHolds(hooks: Hooks, step: ChainStep, st: State) {
    !Named(step.conditionFunc) || EvaluateCondition(hooks, step.conditionFunc.value, st.context, st.results)
  }

  /** The step's prompt, loaded through the cache and rendered with the context. */
  function StepPrompt(env: Env, step: ChainStep, st: State): Option<string> {
    var (eventType, action) := SplitPromptKey(step.promptKey);
    RenderLoaded(Lookup(env.templates, st.cache, env.files, eventType, action, true), st.context, env.render)
  }

  /** The state once the step's prompt has been loaded: only the cache can change. */
  function Loaded(env: Env, step: ChainStep, st: State): State {
    var (eventType, action) := SplitPromptKey(step.promptKey);
    st.(cache := CacheAfter(env.templates, st.cache, env.files, eventType, action, true))
  }

  /**
   * One pass of the loop body. A step whose condition fails, or whose prompt
   * renders to nothing, adds no result and leaves the context as it was.
   */
  function RunStep(env: Env, step: ChainStep, st: State): (o: Outcome)
    ensures st.results <= o.state.results && |o.state.results| <= |st.results| + 1
    ensures o.state.results == st.results ==> o.state.context == st.context
    ensures |o.state.results| > |st.results| ==> !o.raised && Matches(env.hooks, o.state.results[|st.results|], step)
    ensures o.raised ==> o.state.results == st.results
    ensures !ConditionHolds(env.hooks, step, st) ==> o == Outcome(st, false)
    ensures ConditionHolds(env.hooks, step, st) && (StepPrompt(env, step, st).None? || StepPrompt(env, step, st).value == "")
      ==> o == Outcome(Loaded(env, step, st), false)
    ensures ConditionHolds(env.hooks, step, st) && StepPrompt(env, step, st).Some? && StepPrompt(env, step, st).value != ""
      ==> (o.raised <==> env.model(StepPrompt(env, step, st).value, ConversationHistory(st.results)).None?)
    ensures |o.state.results| > |st.results| ==>
      var response := o.state.results[|st.results|].response;
      && ConditionHolds(env.hooks, step, st)
      && StepPrompt(env, step, st).Some?
      && env.model(StepPrompt(env, step, st).value, ConversationHistory(st.results)) == Some(response)
      && o.state == Absorb(step, response, ExtractedFor(env.hooks, step, response), Loaded(env, step, st))
  {
    if !ConditionHolds(env.hooks, step, st) then Outcome(st, false)
    else
      var prompt := StepPrompt(env, step, st);
      var st' := Loaded(env, step, st);
      if prompt.None? || prompt.value == "" then Outcome(st', false)
      else
        match env.model(prompt.value, ConversationHistory(st.results))
        case None => Outcome(st', true)
        case Some(response) => Outcome(Absorb(step, response, ExtractedFor(env.hooks, step, response), st'), false)
  }

  // ---------------------------------------------------------------- the loop

  /** `_execute_sequential` from state `st` over `steps`; a raising model call ends the run. */
  function Run(env: Env, steps: seq<ChainStep>, st: State): Outcome
    decreases |steps|
  {
    if steps == [] then Outcome(st, false)
    else
      var o := RunStep(env, steps[0], st);
      if o.raised then o else Run(env, steps[1..], o.state)
  }

  /** Result `r` is what step `s` records: its name, its prompt key, and the data its extractor gave for the answer. */
  predicate Matches(hooks: Hooks, r: ChainResult, s: ChainStep) {
    r.stepName == s.name && r.promptKey == s.promptKey && r.extractedData == ExtractedFor(hooks, s, r.response)
  }

  /** Each of `rs` was recorded by one of `steps`, in step order, at most one per step. */
  predicate Follows(hooks: Hooks, rs: seq<ChainResult>, steps: seq<ChainStep>)
    decreases |steps|
  {
    rs == [] || (steps != [] && ((Matches(hooks, rs[0], steps[0]) && Follows(hooks, rs[1..], steps[1..])) || Follows(hooks, rs, steps[1..])))
  }

  /** Against a one-step chain: no result, or one result from that step. */
  lemma FollowsOne(hooks: Hooks, rs: seq<ChainResult>, s: ChainStep)
    requires Follows(hooks, rs, [s])
    ensures rs == [] || (|rs| == 1 && Matches(hooks, rs[0], s))
  {
    assert [s][1..] == [];
    assert rs != [] ==> (Matches(hooks, rs[0], s) && Follows(hooks, rs[1..], [])) || Follows(hooks, rs, []);
  }

  /** Against a two-step chain: no result, one result from either step, or one from each in order. */
  lemma FollowsTwo(hooks: Hooks, rs: seq<ChainResult>, s1: ChainStep, s2: ChainStep)
    requires Follows(hooks, rs, [s1, s2])
    ensures |rs| <= 2
    ensures |rs| >= 1 ==> Matches(hooks, rs[0], s1) || Matches(hooks, rs[0], s2)
    ensures |rs| == 2 ==> Matches(hooks, rs[0], s1) && Matches(hooks, rs[1], s2)
  {
    assert [s1, s2][1..] == [s2];
    if rs != [] {
      if Matches(hooks, rs[0], s1) && Follows(hooks, rs[1..], [s2]) {
        FollowsOne(hooks, rs[1..], s2);
      } else {
        assert Follows(hooks, rs, [s2]);
        FollowsOne(hooks, rs, s2);
      }
    }
  }

  /**
   * The run keeps the results it started with, and the results it adds were
   * recorded by the steps in step order, at most one per step.
   */
  lemma {:induction false} RunResultsFollowSteps(env: Env, steps: seq<ChainStep>, st: State)
    ensures var r := Run(env, steps, st).state.results;
      && st.results <= r
      && |r| - |st.results| <= |steps|
      && Follows(env.hooks, r[|st.results|..], steps)
    decreases |steps|
  {
    if steps != [] {
      var o := RunStep(env, steps[0], st);
      if o.raised {
        assert Run(env, steps, st).state.results[|st.results|..] == [];
      } else {
        RunResultsFollowSteps(env, steps[1..], o.state);
        var r := Run(env, steps, st).state.results;
        if o.state.results != st.results {
          assert r[|st.results|..] == [o.state.results[|st.results|]] + r[|o.state.results|..];
        }
      }
    }
  }

  /**
   * `_execute_sequential`, rendering through `loader` (whose cache it fills).
   * `ok` is false when a model call raised.
   */
  method ExecuteSequential(steps: seq<ChainStep>, context: Context, loader: PromptLoader,
                           files: Files, render: Renderer, hooks: Hooks, model: Model)
    returns (results: seq<ChainResult>, ok: bool)
    modifies loader
    ensures var o := Run(Env(loader.config.templates, files, render, hooks, model), steps, State([], context, old(loader.cache)));
      && ok == !o.raised
      && (ok ==> results == o.state.results)
      && loader.cache == o.state.cache
  {
    ghost var env := Env(loader.config.templates, files, render, hooks, model);
    results := [];
    var accumulated := context;
    var k := 0;
    while k < |steps|
      invariant 0 <= k <= |steps|
      invariant env.templates == loader.config.templates
      invariant Run(env, steps[k..], State(results, accumulated, loader.cache))
             == Run(env, steps, State([], context, old(loader.cache)))
    {
      ghost var st := State(results, accumulated, loader.cache);
      assert steps[k..][0] == steps[k] && steps[k..][1..] == steps[k + 1..];
      var step := steps[k];
      k := k + 1;
      if Named(step.conditionFunc) && !EvaluateCondition(hooks, step.conditionFunc.value, accumulated, results) {
        continue;
      }
      var (eventType, action) := SplitPromptKey(step.promptKey);
      var prompt := loader.RenderPrompt(eventType, action, accumulated, files, render);
      if prompt.None? || prompt.value == "" {
        continue;
      }
      var history: Option<seq<HistoryPart>> := None;
      if results != [] {
        var parts := BuildConversationContext(results);
        history := Some(parts);
      }
      var answer := model(prompt.value, history);
      if answer.None? {
        return results, false;
      }
      var response := answer.value;
      var extracted: Option<map<string, Value>> := None;
      if Named(step.extractFunc) {
        var data := ExtractData(hooks, step.extractFunc.value, response);
        extracted := Some(data);
        accumulated := accumulated + data;
      }
      results := results + [ChainResult(step.name, response, extracted, step.promptKey)];
      accumulated := accumulated[step.name + "_response" := Str(response)];
      if extracted.Some? && extracted.value != map[] {
        accumulated := accumulated[step.name + "_data" := Dict(extracted.value)];
      }
      assert State(results, accumulated, loader.cache) == RunStep(env, step, st).state;
    }
    return results, true;
  }

  /** `execute_chain`: every chain type runs the sequential loop, so the chain type never changes the outcome. */
  method ExecuteChain(steps: seq<ChainStep>, context: Context, chainType: ChainType, loader: PromptLoader,
                      files: Files, render: Renderer, hooks: Hooks, model: Model)
    returns (results: seq<ChainResult>, ok: bool)
    modifies loader
    ensures var o := Run(Env(loader.config.templates, files, render, hooks, model), steps, State([], context, old(loader.cache)));
      && ok == !o.raised
      && (ok ==> results == o.state.results)
      && loader.cache == o.state.cache
  {
    match chainType
    case Sequential =>
      results, ok := ExecuteSequential(steps, context, loader, files, render, hooks, model);
    case Parallel =>
      results, ok := ExecuteSequential(steps, context, loader, files, render, hooks, model);
    case Conditional =>
      results, ok := ExecuteSequential(steps, context, loader, files, render, hooks, model);
  }

  // ---------------------------------------------------------------- the final response

  const NoResultsMessage := "No analysis results available."

  /** The base `format_final_response`: the last result's answer, or a fixed message when there is none. */
  function FormatFinalResponse(results: seq<ChainResult>): (r: string)
    ensures results == [] ==> r == NoResultsMessage
    ensures results != [] ==> r == results[|results| - 1].response
  {
    if results == [] then NoResultsMessage else results[|results| - 1].response
  }
}
