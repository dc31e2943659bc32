/**
 * Prompt templates (hls/src/hsl_handler/prompts.py): which template file an
 * event and action resolve to, the loader's in-place cache of file contents,
 * rendering with its fallbacks, and the context handed to the renderer.
 *
 * The template directory is a map from relative path to file content (a path
 * that is absent is a file that is missing or cannot be read); Jinja2
 * rendering is a function that gives `None` where rendering raises.
 */
module Prompts {
  import opened Wrappers
  import opened Text
  import opened Json
  import opened Config

  /** The files under the template directory, by relative path. */
  type Files = map<string, string>

  /** `Template(t).render(**ctx)`, or `None` when that raises. */
  type Renderer = (string, map<string, Value>) -> Option<string>

  // ---------------------------------------------------------------- resolving a template

  /** The template file configured for `action`, falling back to `"default"`; an empty name counts as none. */
  function GetPromptPath(templates: map<string, map<string, string>>, eventType: string, action: string): (r: Option<string>)
    ensures r.Some? ==> r.value != ""
    ensures var t := if eventType in templates then templates[eventType] else map[];
      && (action in t && t[action] != "" ==> r == Some(t[action]))
      && (!(action in t && t[action] != "") && "default" in t && t["default"] != "" ==> r == Some(t["default"]))
      && (r.None? <==> (action !in t || t[action] == "") && ("default" !in t || t["default"] == ""))
  {
    var t := if eventType in templates then templates[eventType] else map[];
    if action in t && t[action] != "" then Some(t[action])
    else if "default" in t && t["default"] != "" then Some(t["default"])
    else None
  }

  /** The content of the template file for `(eventType, action)`, read from disk with no cache involved. */
  function ReadTemplate(templates: map<string, map<string, string>>, files: Files, eventType: string, action: string): Option<string> {
    match GetPromptPath(templates, eventType, action)
    case None => None
    case Some(p) => if p in files then Some(files[p]) else None
  }

  // ---------------------------------------------------------------- the cache

  /** The cache key `f"{event_type}:{action}"`. */
  function CacheKey(eventType: string, action: string): string {
    eventType + ":" + action
  }

  /** Distinct (event type, action) pairs get distinct keys as long as event types hold no `:` (GitHub's never do). */
  lemma CacheKeyInjective(e1: string, a1: string, e2: string, a2: string)
    requires ':' !in e1 && ':' !in e2
    requires CacheKey(e1, a1) == CacheKey(e2, a2)
    ensures e1 == e2 && a1 == a2
  {
    FirstFieldOfJoined(e1, a1, ':');
    FirstFieldOfJoined(e2, a2, ':');
    assert e1 + [':'] + a1 == CacheKey(e1, a1);
    assert e2 + [':'] + a2 == CacheKey(e2, a2);
    assert a1 == CacheKey(e1, a1)[|e1| + 1..];
    assert a2 == CacheKey(e2, a2)[|e2| + 1..];
  }

  /** What `load_prompt` returns, given the cache as it stands. */
  function Lookup(templates: map<string, map<string, string>>, cache: map<string, string>, files: Files,
                  eventType: string, action: string, useCache: bool): (r: Option<string>)
    ensures GetPromptPath(templates, eventType, action).None? ==> r.None?
    ensures GetPromptPath(templates, eventType, action).Some? && useCache && CacheKey(eventType, action) in cache
      ==> r == Some(cache[CacheKey(eventType, action)])
    ensures !(useCache && CacheKey(eventType, action) in cache) ==> r == ReadTemplate(templates, files, eventType, action)
  {
    if GetPromptPath(templates, eventType, action).None? then None
    else if useCache && CacheKey(eventType, action) in cache then Some(cache[CacheKey(eventType, action)])
    else ReadTemplate(templates, files, eventType, action)
  }

  /** The cache after `load_prompt`: a successful read with caching on adds that one entry, and nothing else changes. */
  function CacheAfter(templates: map<string, map<string, string>>, cache: map<string, string>, files: Files,
                      eventType: string, action: string, useCache: bool): (c: map<string, string>)
    ensures forall k :: k != CacheKey(eventType, action) ==> (k in c <==> k in cache)
    ensures forall k :: k in cache ==> k in c && c[k] == cache[k]
    ensures CacheKey(eventType, action) in c
      <==> CacheKey(eventType, action) in cache
           || (useCache && ReadTemplate(templates, files, eventType, action).Some?)
    ensures !useCache ==> c == cache
  {
    var key := CacheKey(eventType, action);
    if useCache && key !in cache && ReadTemplate(templates, files, eventType, action).Some? then
      cache[key := ReadTemplate(templates, files, eventType, action).value]
    else cache
  }

  /** Every cached entry for a `:`-free event type holds what reading the file would give now. */
  ghost predicate Coherent(templates: map<string, map<string, string>>, cache: map<string, string>, files: Files) {
    forall e, a {:trigger CacheKey(e, a)} :: ':' !in e && CacheKey(e, a) in cache
      ==> ReadTemplate(templates, files, e, a) == Some(cache[CacheKey(e, a)])
  }

  /**
   * The cache is invisible: while the files do not change, a lookup through
   * a coherent cache returns what reading the file returns, and leaves the
   * cache coherent.
   */
  lemma LookupIsTransparent(templates: map<string, map<string, string>>, cache: map<string, string>, files: Files,
                            eventType: string, action: string, useCache: bool)
    requires Coherent(templates, cache, files)
    requires ':' !in eventType
    ensures Lookup(templates, cache, files, eventType, action, useCache) == ReadTemplate(templates, files, eventType, action)
    ensures Coherent(templates, CacheAfter(templates, cache, files, eventType, action, useCache), files)
  {
    var key := CacheKey(eventType, action);
    var c := CacheAfter(templates, cache, files, eventType, action, useCache);
    forall e, a | ':' !in e && CacheKey(e, a) in c
      ensures ReadTemplate(templates, files, e, a) == Some(c[CacheKey(e, a)])
    {
      if CacheKey(e, a) == key && key !in cache {
        CacheKeyInjective(e, a, eventType, action);
      }
    }
  }

  // ---------------------------------------------------------------- rendering

  /** What `render_prompt` makes of a loaded template: nothing for a missing or empty one, the raw template when rendering raises. */
  function RenderLoaded(template: Option<string>, ctx: map<string, Value>, render: Renderer): (r: Option<string>)
    ensures r.None? <==> template.None? || template.value == ""
    ensures r.Some? ==> r == render(template.value, ctx) || (render(template.value, ctx).None? && r == template)
  {
    if template.None? || template.value == "" then None
    else
      match render(template.value, ctx)
      case Some(s) => Some(s)
      case None => template
  }

  /** `PromptLoader`: a template configuration and the cache it fills. */
  class PromptLoader {
    const config: PromptsConfig
    var cache: map<string, string>

    constructor (config: PromptsConfig)
      ensures this.config == config && cache == map[]
    {
      this.config := config;
      cache := map[];
    }

    method LoadPrompt(eventType: string, action: string, useCache: bool, files: Files) returns (r: Option<string>)
      modifies this
      ensures r == Lookup(config.templates, old(cache), files, eventType, action, useCache)
      ensures cache == CacheAfter(config.templates, old(cache), files, eventType, action, useCache)
    {
      var promptFile := GetPromptPath(config.templates, eventType, action);
      if promptFile.None? {
        return None;
      }
      var key := CacheKey(eventType, action);
      if useCache && key in cache {
        return Some(cache[key]);
      }
      if promptFile.value !in files {
        return None;
      }
      var content := files[promptFile.value];
      if useCache {
        cache := cache[key := content];
      }
      return Some(content);
    }

    method RenderPrompt(eventType: string, action: string, ctx: map<string, Value>, files: Files, render: Renderer)
      returns (r: Option<string>)
      modifies this
      ensures r == RenderLoaded(Lookup(config.templates, old(cache), files, eventType, action, true), ctx, render)
      ensures cache == CacheAfter(config.templates, old(cache), files, eventType, action, true)
    {
      var template := LoadPrompt(eventType, action, true, files);
      if template.None? || template.value == "" {
        return None;
      }
      var rendered := render(template.value, ctx);
      if rendered.None? {
        return template;
      }
      return rendered;
    }

    method ClearCache()
      modifies this
      ensures cache == map[]
    {
      cache := map[];
    }
  }

  // ---------------------------------------------------------------- the rendering context

  /** The event-specific payload sections the context carries besides the four common ones. */
  function EventSections(eventType: string): set<string> {
    if eventType == "issues" then {"issue"}
    else if eventType == "pull_request" then {"pull_request"}
    else if eventType == "pull_request_review" then {"review", "pull_request"}
    else if eventType == "workflow_run" then {"workflow_run"}
    else {}
  }

  /** `create_prompt_context`. */
  function CreatePromptContext(eventType: string, payload: map<string, Value>): (ctx: map<string, Value>)
    ensures ctx.Keys == {"event_type", "payload", "repository", "sender"} + EventSections(eventType)
    ensures ctx["event_type"] == Str(eventType) && ctx["payload"] == Dict(payload)
    ensures forall k :: k in ctx && k != "event_type" && k != "payload" ==> ctx[k] == Get(payload, k, Dict(map[]))
  {
    var empty := Dict(map[]);
    var base := map[
      "event_type" := Str(eventType),
      "payload" := Dict(payload),
      "repository" := Get(payload, "repository", empty),
      "sender" := Get(payload, "sender", empty)];
    if eventType == "issues" then
      base["issue" := Get(payload, "issue", empty)]
    else if eventType == "pull_request" then
      base["pull_request" := Get(payload, "pull_request", empty)]
    else if eventType == "pull_request_review" then
      base["review" := Get(payload, "review", empty)]["pull_request" := Get(payload, "pull_request", empty)]
    else if eventType == "workflow_run" then
      base["workflow_run" := Get(payload, "workflow_run", empty)]
    else base
  }
}
