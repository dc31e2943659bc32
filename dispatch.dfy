/**
 * The webhook entry point (webhook_dispatch.py): the script the webhook
 * service runs for every delivery. It parses the payload, checks the
 * signature, checks that the repository and the event are configured, and
 * only then hands the event to the processor, printing one JSON reply.
 *
 * HMAC-SHA256 is a function from secret and body to a hex digest; JSON
 * parsing, the processor and the text of unexpected exceptions are
 * parameters.
 */
module Dispatch {
  import opened Wrappers
  import opened Text
  import opened Json
  import opened Config

  // ---------------------------------------------------------------- signatures

  predicate IsHexDigit(c: char) { '0' <= c <= '9' || 'a' <= c <= 'f' }

  /** What `hexdigest()` returns: lower-case hex digits. */
  type HexDigest = s: string | forall i :: 0 <= i < |s| ==> IsHexDigit(s[i])

  /** `hmac.new(secret, body, hashlib.sha256).hexdigest()`. */
  type Hmac = (string, string) -> HexDigest

  predicate IsAscii(s: string) { forall i :: 0 <= i < |s| ==> s[i] as int < 128 }

  const SignaturePrefix := "sha256="

  /**
   * `verify_signature`: a signature without the `sha256=` prefix is rejected
   * outright; otherwise it must equal the prefixed digest of the body.
   * `None` where `hmac.compare_digest` raises, which it does for a string
   * holding a non-ASCII character.
   */
  function VerifySignature(body: string, signature: string, secret: string, hmac: Hmac): (r: Option<bool>)
    ensures !StartsWith(signature, SignaturePrefix) ==> r == Some(false)
    ensures r.None? <==> StartsWith(signature, SignaturePrefix) && !IsAscii(signature)
    ensures r == Some(true) <==> signature == SignaturePrefix + hmac(secret, body)
  {
    var expected := SignaturePrefix + hmac(secret, body);
    assert IsAscii(expected) by {
      forall i | 0 <= i < |expected| ensures expected[i] as int < 128 {
        if i >= |SignaturePrefix| {
          assert expected[i] == hmac(secret, body)[i - |SignaturePrefix|];
        }
      }
    }
    if !StartsWith(signature, SignaturePrefix) then Some(false)
    else if !IsAscii(signature) then None
    else Some(expected == signature)
  }

  // ---------------------------------------------------------------- processing

  /** What the processor did with the event: returned a result, or raised with this message. */
  datatype ProcessResult = Returned(value: Value) | Raised(message: string)

  /** `process_webhook_directly`: the processor's result or its error, tagged with the request id. */
  function ProcessWebhookDirectly(requestId: string, process: ProcessResult): (r: Value)
    ensures StatusOf(r) == "processed" <==> process.Returned?
    ensures StatusOf(r) == "error" <==> process.Raised?
    ensures r.Dict? && "request_id" in r.fields && r.fields["request_id"] == Str(requestId)
    ensures process.Returned? ==> "result" in r.fields && r.fields["result"] == process.value
    ensures process.Raised? ==> "error" in r.fields && r.fields["error"] == Str(process.message)
  {
    match process
    case Returned(v) => Reply("processed", map["request_id" := Str(requestId), "result" := v])
    case Raised(m) => Reply("error", map["request_id" := Str(requestId), "error" := Str(m)])
  }

  // ---------------------------------------------------------------- the dispatch script

  /** One run of the script: the JSON lines it printed, its exit status, and whether the processor ran. */
  datatype Run = Run(printed: seq<Value>, exitCode: nat, processorCalled: bool)

  function ErrorLine(message: string): Value {
    Reply("error", map["error" := Str(message)])
  }

  /** How Python prints an optional event name in a message. */
  function EventText(event: Option<string>): string {
    if event.Some? then event.value else "None"
  }

  /** The repository full name of a parsed payload; `None` where reading it raises (a payload or `repository` that is not an object). */
  function RepositoryName(payload: Value): Option<Value> {
    if !payload.Dict? then None
    else
      var repository := Get(payload.fields, "repository", Dict(map[]));
      if !repository.Dict? then None
      else Some(Get(repository.fields, "full_name", Null))
  }

  /** The name the script looks up: a non-empty string naming a configured repository. */
  predicate Configured(settings: Settings, name: Value) {
    Truthy(name) && name.Str? && FindRepository(settings.repositories, name.s).Some?
  }

  /** The event is enabled for the named repository; a missing event header is never enabled. */
  predicate Enabled(settings: Settings, name: string, event: Option<string>) {
    event.Some? && IsEventEnabled(settings.repositories, name, event.value)
  }

  /** The signature check passes: validation is off, or a signature is present and verifies. */
  predicate SignatureAccepted(settings: Settings, body: string, signature: Option<string>, hmac: Hmac) {
    !settings.features.signatureValidation
    || (signature.Some? && signature.value != ""
        && VerifySignature(body, signature.value, settings.webhookSecret, hmac) == Some(true))
  }

  /**
   * `main`, from the point where the headers and the body are known.
   * `parsed` is the parsed body (`None` for invalid JSON) and `crash` the
   * text of any unexpected exception.
   */
  function Dispatch(settings: Settings, event: Option<string>, signature: Option<string>, body: string,
                    parsed: Option<Value>, hmac: Hmac, requestId: string, process: ProcessResult, crash: string): (r: Run)
    ensures r.processorCalled <==>
      && parsed.Some?
      && SignatureAccepted(settings, body, signature, hmac)
      && RepositoryName(parsed.value).Some?
      && Configured(settings, RepositoryName(parsed.value).value)
      && Enabled(settings, RepositoryName(parsed.value).value.s, event)
    ensures |r.printed| >= 1
    ensures r.processorCalled ==> r.printed[0] == ProcessWebhookDirectly(requestId, process)
    ensures parsed.None? ==> r == Run([ErrorLine("Invalid JSON payload")], 1, false)
    ensures parsed.Some? && settings.features.signatureValidation && (signature.None? || signature == Some(""))
      ==> r == Run([ErrorLine("Missing signature")], 1, false)
    ensures parsed.Some? && SignatureAccepted(settings, body, signature, hmac) && RepositoryName(parsed.value).Some?
      && (!Configured(settings, RepositoryName(parsed.value).value)
          || !Enabled(settings, RepositoryName(parsed.value).value.s, event))
      ==> r.exitCode == 0 && |r.printed| == 1 && StatusOf(r.printed[0]) == "ignored"
    ensures r.processorCalled ==> (r.exitCode == 0 <==> process.Raised? || process.value.Dict?)
    ensures r.exitCode == 0 ==> forall i :: 0 <= i < |r.printed| ==> StatusOf(r.printed[i]) != "error" || r.processorCalled
  {
    if parsed.None? then Run([ErrorLine("Invalid JSON payload")], 1, false)
    else if settings.features.signatureValidation && (signature.None? || signature.value == "") then
      Run([ErrorLine("Missing signature")], 1, false)
    else if settings.features.signatureValidation
            && VerifySignature(body, signature.value, settings.webhookSecret, hmac).None? then
      Run([ErrorLine(crash)], 1, false)
    else if settings.features.signatureValidation
            && VerifySignature(body, signature.value, settings.webhookSecret, hmac) == Some(false) then
      Run([ErrorLine("Invalid signature")], 1, false)
    else
      match RepositoryName(parsed.value)
      case None => Run([ErrorLine(crash)], 1, false)
      case Some(name) =>
        if !Configured(settings, name) then
          Run([Reply("ignored", map["reason" := Str("repository not configured")])], 0, false)
        else if !Enabled(settings, name.s, event) then
          Run([Reply("ignored", map["reason" := Str("event " + EventText(event) + " not enabled")])], 0, false)
        else
          var result := ProcessWebhookDirectly(requestId, process);
          if process.Returned? && !process.value.Dict? then
            // logging the result's status reads it as an object, which raises
            Run([result, ErrorLine(crash)], 1, true)
          else Run([result], 0, true)
  }

  // ---------------------------------------------------------------- properties

  /** With validation off, the signature header makes no difference at all. */
  lemma SignatureIgnoredWhenDisabled(settings: Settings, event: Option<string>, s1: Option<string>, s2: Option<string>,
                                     body: string, parsed: Option<Value>, hmac: Hmac, requestId: string,
                                     process: ProcessResult, crash: string)
    requires !settings.features.signatureValidation
    ensures Dispatch(settings, event, s1, body, parsed, hmac, requestId, process, crash)
         == Dispatch(settings, event, s2, body, parsed, hmac, requestId, process, crash)
  {
  }

  /** With validation on, a present but wrongly signed body is rejected before the payload is looked at. */
  lemma BadSignatureRejected(settings: Settings, event: Option<string>, signature: string, body: string,
                             payload: Value, hmac: Hmac, requestId: string, process: ProcessResult, crash: string)
    requires settings.features.signatureValidation && signature != ""
    requires signature != SignaturePrefix + hmac(settings.webhookSecret, body)
    ensures var r := Dispatch(settings, event, Some(signature), body, Some(payload), hmac, requestId, process, crash);
      && !r.processorCalled && r.exitCode == 1
      && (IsAscii(signature) || !StartsWith(signature, SignaturePrefix) ==> r.printed == [ErrorLine("Invalid signature")])
  {
  }

  /** A correctly signed body always passes the signature check. */
  lemma SignedBodyAccepted(settings: Settings, body: string, hmac: Hmac)
    ensures SignatureAccepted(settings, body, Some(SignaturePrefix + hmac(settings.webhookSecret, body)), hmac)
  {
    var signature := SignaturePrefix + hmac(settings.webhookSecret, body);
    assert signature[..|SignaturePrefix|] == SignaturePrefix;
  }

  /** The repository lookup never consults the `enabled` flags. */
  lemma FindRepositoryIgnoresEnabledFlag(repos: seq<RepositoryConfig>, flags: seq<bool>, name: string)
    requires |flags| == |repos|
    ensures FindRepository(Reflag(repos, flags), name).Some? == FindRepository(repos, name).Some?
  {
    var repos' := Reflag(repos, flags);
    assert forall j :: 0 <= j < |repos| ==> repos'[j].name == repos[j].name;
  }

  /**
   * The script never reads a repository's `enabled` flag: a repository
   * switched off in the configuration has its events processed all the same.
   */
  lemma DispatchIgnoresEnabledFlag(settings: Settings, flags: seq<bool>, event: Option<string>, signature: Option<string>,
                                   body: string, parsed: Option<Value>, hmac: Hmac, requestId: string,
                                   process: ProcessResult, crash: string)
    requires |flags| == |settings.repositories|
    ensures Dispatch(settings.(repositories := Reflag(settings.repositories, flags)), event, signature, body, parsed,
                     hmac, requestId, process, crash)
         == Dispatch(settings, event, signature, body, parsed, hmac, requestId, process, crash)
  {
    var settings' := settings.(repositories := Reflag(settings.repositories, flags));
    if parsed.Some? && RepositoryName(parsed.value).Some? {
      var name := RepositoryName(parsed.value).value;
      if name.Str? {
        FindRepositoryIgnoresEnabledFlag(settings.repositories, flags, name.s);
        if event.Some? {
          EventEnabledIgnoresEnabledFlag(settings.repositories, flags, name.s, event.value);
        }
      }
    }
  }
}
