/**
 * Configuration of the webhook handler (hls/src/hsl_handler/config.py):
 * the per-repository policy table, feature flags and their defaults,
 * the lookups the dispatcher and handlers make, and the `${VAR}`
 * substitution applied to the loaded YAML.
 */
module Config {
  import opened Wrappers
  import opened Text
  import opened Json

  // ---------------------------------------------------------------- records and defaults

  datatype RepositoryConfig = RepositoryConfig(
    name: string,
    enabled: bool,
    localPath: Option<string>,
    events: seq<string>,
    settings: map<string, Value>)

  /** A repository entry that gives only its name and events: everything else takes its default. */
  function NewRepositoryConfig(name: string, events: seq<string>): (r: RepositoryConfig)
    ensures r.name == name && r.events == events
    ensures r.enabled && r.localPath == None && r.settings == map[]
  {
    RepositoryConfig(name, true, None, events, map[])
  }

  datatype FeaturesConfig = FeaturesConfig(
    asyncProcessing: bool,
    rateLimiting: bool,
    signatureValidation: bool,
    payloadLogging: bool)

  function DefaultFeatures(): (f: FeaturesConfig)
    ensures f.signatureValidation && f.asyncProcessing && f.rateLimiting && !f.payloadLogging
  {
    FeaturesConfig(true, true, true, false)
  }

  datatype PromptsConfig = PromptsConfig(baseDir: string, templates: map<string, map<string, string>>)

  datatype CronAnalysisConfig = CronAnalysisConfig(
    enabled: bool,
    minAgeMinutes: int,
    maxIssuesPerRepo: int,
    delayBetweenIssues: int,
    analyzedLabel: string)

  function DefaultCronAnalysis(): (c: CronAnalysisConfig)
    ensures c.enabled && c.minAgeMinutes == 30 && c.maxIssuesPerRepo == 10
    ensures c.delayBetweenIssues == 2 && c.analyzedLabel == "clide-analyzed"
  {
    CronAnalysisConfig(true, 30, 10, 2, "clide-analyzed")
  }

  /** Which invitations are accepted; `None` stands for an option left unset. */
  datatype InvitationCriteria = InvitationCriteria(
    repositoryPatterns: seq<string>,
    fromOrganizations: Option<seq<string>>,
    fromUsers: Option<seq<string>>,
    excludePatterns: Option<seq<string>>)

  function DefaultInvitationCriteria(): (c: InvitationCriteria)
    ensures c.repositoryPatterns == ["*"]
    ensures c.fromOrganizations == None && c.fromUsers == None && c.excludePatterns == None
  {
    InvitationCriteria(["*"], None, None, None)
  }

  datatype AutoAcceptConfig = AutoAcceptConfig(enabled: bool, criteria: InvitationCriteria)

  datatype Settings = Settings(
    repositories: seq<RepositoryConfig>,
    webhookSecret: string,
    prompts: PromptsConfig,
    features: FeaturesConfig,
    cronAnalysis: CronAnalysisConfig,
    autoAcceptInvitations: AutoAcceptConfig)

  // ---------------------------------------------------------------- lookups

  /** `repos[i]` is the first entry named `name`. */
  predicate FirstNamed(repos: seq<RepositoryConfig>, name: string, i: int) {
    0 <= i < |repos| && repos[i].name == name && forall j :: 0 <= j < i ==> repos[j].name != name
  }

  /** `Settings.get_repository_config`: the first repository with this name, if any. */
  function FindRepository(repos: seq<RepositoryConfig>, name: string): (r: Option<RepositoryConfig>)
    ensures r.None? <==> forall i :: 0 <= i < |repos| ==> repos[i].name != name
    ensures forall i :: FirstNamed(repos, name, i) ==> r == Some(repos[i])
  {
    if repos == [] then None
    else if repos[0].name == name then Some(repos[0])
    else
      var r := FindRepository(repos[1..], name);
      assert forall i :: FirstNamed(repos, name, i) ==> i > 0 && FirstNamed(repos[1..], name, i - 1);
      r
  }

  /** `Settings.is_event_enabled`. */
  function IsEventEnabled(repos: seq<RepositoryConfig>, name: string, eventType: string): (b: bool)
    ensures b <==> exists i :: FirstNamed(repos, name, i) && eventType in repos[i].events
  {
    var r := FindRepository(repos, name);
    SomeIsFirst(repos, name);
    r.Some? && eventType in r.value.events
  }

  lemma {:induction false} FirstOccurrence(repos: seq<RepositoryConfig>, name: string, i: int)
    requires 0 <= i < |repos| && repos[i].name == name
    ensures exists k :: FirstNamed(repos, name, k)
  {
    if !FirstNamed(repos, name, i) {
      var j :| 0 <= j < i && repos[j].name == name;
      FirstOccurrence(repos, name, j);
    }
  }

  lemma SomeIsFirst(repos: seq<RepositoryConfig>, name: string)
    ensures (exists i :: 0 <= i < |repos| && repos[i].name == name) ==> exists k :: FirstNamed(repos, name, k)
  {
    if i :| 0 <= i < |repos| && repos[i].name == name {
      FirstOccurrence(repos, name, i);
    }
  }

  /** Whether an event is enabled never depends on the repositories' `enabled` flags. */
  lemma EventEnabledIgnoresEnabledFlag(repos: seq<RepositoryConfig>, flags: seq<bool>, name: string, eventType: string)
    requires |flags| == |repos|
    ensures IsEventEnabled(Reflag(repos, flags), name, eventType) == IsEventEnabled(repos, name, eventType)
  {
    var repos' := Reflag(repos, flags);
    assert forall j :: 0 <= j < |repos| ==> repos'[j].name == repos[j].name && repos'[j].events == repos[j].events;
    assert forall i :: FirstNamed(repos', name, i) <==> FirstNamed(repos, name, i);
  }

  function Reflag(repos: seq<RepositoryConfig>, flags: seq<bool>): seq<RepositoryConfig>
    requires |flags| == |repos|
  {
    seq(|repos|, i requires 0 <= i < |repos| => repos[i].(enabled := flags[i]))
  }

  /** `repo_config.settings.get(key, default)`, read as a condition. */
  predicate SettingOn(repo: RepositoryConfig, key: string, default: bool) {
    Truthy(Get(repo.settings, key, Bool(default)))
  }

  // ---------------------------------------------------------------- ${VAR} substitution

  /** A string of the form `${NAME}`. */
  predicate IsPlaceholder(s: string) {
    StartsWith(s, "${") && EndsWith(s, "}")
  }

  function PlaceholderName(s: string): string
    requires IsPlaceholder(s)
  {
    assert s[..2] == "${" && s[|s| - 1..] == "}";
    assert s[1] == '{' && s[|s| - 1] == '}';
    s[2..|s| - 1]
  }

  /** `Settings._substitute_env_vars`: `os.getenv(NAME, original)` for each `${NAME}` string, recursively. */
  function SubstituteEnvVars(env: map<string, string>, v: Value): (r: Value)
    ensures v.Dict? <==> r.Dict?
    ensures v.Dict? ==> r.fields.Keys == v.fields.Keys
    ensures v.List? <==> r.List?
    ensures v.List? ==> |r.items| == |v.items|
    ensures v.Str? && IsPlaceholder(v.s) && PlaceholderName(v.s) in env ==> r == Str(env[PlaceholderName(v.s)])
    ensures v.Str? && IsPlaceholder(v.s) && PlaceholderName(v.s) !in env ==> r == v
    ensures !v.Dict? && !v.List? && !(v.Str? && IsPlaceholder(v.s)) ==> r == v
  {
    match v
    case Dict(m) => Dict(map k | k in m :: SubstituteEnvVars(env, m[k]))
    case List(xs) => List(seq(|xs|, i requires 0 <= i < |xs| => SubstituteEnvVars(env, xs[i])))
    case Str(s) =>
      if IsPlaceholder(s) && PlaceholderName(s) in env then Str(env[PlaceholderName(s)]) else v
    case _ => v
  }

  /** The two values have the same structure: same keys, same lengths, same non-string scalars. */
  ghost predicate SameShape(a: Value, b: Value) {
    match a
    case Dict(m) =>
      b.Dict? && b.fields.Keys == m.Keys && forall k :: k in m ==> SameShape(m[k], b.fields[k])
    case List(xs) =>
      b.List? && |b.items| == |xs| && forall i :: 0 <= i < |xs| ==> SameShape(xs[i], b.items[i])
    case Str(_) => b.Str?
    case _ => b == a
  }

  /** Substitution keeps every dictionary's keys and every list's length and order, at every depth. */
  lemma {:induction false} SubstitutePreservesShape(env: map<string, string>, v: Value)
    ensures SameShape(v, SubstituteEnvVars(env, v))
  {
    match v
    case Dict(m) =>
      forall k | k in m ensures SameShape(m[k], SubstituteEnvVars(env, v).fields[k]) {
        SubstitutePreservesShape(env, m[k]);
      }
    case List(xs) =>
      forall i | 0 <= i < |xs| ensures SameShape(xs[i], SubstituteEnvVars(env, v).items[i]) {
        SubstitutePreservesShape(env, xs[i]);
      }
    case _ =>
  }

  /** No string in `v`, at any depth, is a placeholder whose variable is set. */
  ghost predicate NothingToSubstitute(env: map<string, string>, v: Value) {
    match v
    case Dict(m) => forall k :: k in m ==> NothingToSubstitute(env, m[k])
    case List(xs) => forall i :: 0 <= i < |xs| ==> NothingToSubstitute(env, xs[i])
    case Str(s) => !(IsPlaceholder(s) && PlaceholderName(s) in env)
    case _ => true
  }

  /** A configuration with nothing to substitute (in particular, any configuration when no variable is set) comes back unchanged. */
  lemma {:induction false} SubstituteIsIdentityOtherwise(env: map<string, string>, v: Value)
    requires NothingToSubstitute(env, v)
    ensures SubstituteEnvVars(env, v) == v
  {
    match v
    case Dict(m) =>
      forall k | k in m ensures SubstituteEnvVars(env, m[k]) == m[k] {
        SubstituteIsIdentityOtherwise(env, m[k]);
      }
      assert SubstituteEnvVars(env, v).fields == m;
    case List(xs) =>
      forall i | 0 <= i < |xs| ensures SubstituteEnvVars(env, xs[i]) == xs[i] {
        SubstituteIsIdentityOtherwise(env, xs[i]);
      }
      assert SubstituteEnvVars(env, v).items == xs;
    case _ =>
  }

  /** When no variable is set there is nothing to substitute. */
  lemma {:induction false} NothingToSubstituteWithoutEnv(v: Value)
    ensures NothingToSubstitute(map[], v)
  {
    match v
    case Dict(m) =>
      forall k | k in m ensures NothingToSubstitute(map[], m[k]) { NothingToSubstituteWithoutEnv(m[k]); }
    case List(xs) =>
      forall i | 0 <= i < |xs| ensures NothingToSubstitute(map[], xs[i]) { NothingToSubstituteWithoutEnv(xs[i]); }
    case _ =>
  }
}
