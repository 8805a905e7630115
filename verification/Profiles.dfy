/** Inference profiles, their fingerprints, and the capability observations kept for them. */
module Profiles {
  import opened Text

  datatype Mode = Auto | Strict | JsonSchema | ToolCall | JsonObject | PromptOnly

  datatype Status = Unknown | Passed | Failed

  /** A parsed `base_url`; the fingerprint drops query and fragment. */
  datatype Url = Url(endpoint: string, query: string, fragment: string)

  datatype Profile = Profile(
    id: string,
    providerKind: string,
    baseUrl: Url,
    model: string,
    secretRef: string,
    timeoutSeconds: real,
    maxRetries: nat,
    maxInputTokens: nat,
    maxOutputTokens: nat,
    extraBody: string,
    preference: Mode,
    tokenParameter: string,
    supportsSystemRole: bool,
    supportsSeed: bool,
    enabled: bool)

  datatype Material = Material(
    providerKind: string,
    endpoint: string,
    model: string,
    timeoutSeconds: real,
    maxRetries: nat,
    maxInputTokens: nat,
    maxOutputTokens: nat,
    extraBody: string,
    preference: Mode,
    tokenParameter: string,
    supportsSystemRole: bool,
    supportsSeed: bool)

  /** SHA-256 stands for an injective function, so a digest is its material; "" is `NoFingerprint`. */
  datatype Fingerprint = NoFingerprint | Digest(material: Material)

  /** `generation_profile_fingerprint`. */
  function FingerprintOf(p: Profile, override: Option<Mode>): Fingerprint {
    Digest(Material(p.providerKind, p.baseUrl.endpoint, p.model, p.timeoutSeconds, p.maxRetries,
                    p.maxInputTokens, p.maxOutputTokens, p.extraBody,
                    if override.Some? then override.value else p.preference,
                    p.tokenParameter, p.supportsSystemRole, p.supportsSeed))
  }

  /** Both describe the same provider, model, limits and controls, in the preference they are used with. */
  ghost predicate SameIdentity(p: Profile, a: Option<Mode>, q: Profile, b: Option<Mode>) {
    && p.providerKind == q.providerKind && p.baseUrl.endpoint == q.baseUrl.endpoint && p.model == q.model
    && p.timeoutSeconds == q.timeoutSeconds && p.maxRetries == q.maxRetries
    && p.maxInputTokens == q.maxInputTokens && p.maxOutputTokens == q.maxOutputTokens
    && p.extraBody == q.extraBody && p.tokenParameter == q.tokenParameter
    && p.supportsSystemRole == q.supportsSystemRole && p.supportsSeed == q.supportsSeed
    && (a.Some? && b.Some? ==> a.value == b.value)
    && (a.Some? && b.None? ==> a.value == q.preference)
    && (a.None? && b.Some? ==> p.preference == b.value)
    && (a.None? && b.None? ==> p.preference == q.preference)
  }

  /**
   Fingerprints agree exactly for the same identity: id, query, fragment, secret reference and the
   enabled flag do not count, and everything else does.
   */
  lemma SameFingerprint(p: Profile, a: Option<Mode>, q: Profile, b: Option<Mode>)
    ensures FingerprintOf(p, a) == FingerprintOf(q, b) <==> SameIdentity(p, a, q, b)
    ensures FingerprintOf(p, a) != NoFingerprint
  {
  }

  datatype Capabilities = Capabilities(
    fingerprint: Fingerprint,
    mode: Mode,
    jsonSchemaSupported: bool,
    toolCallSupported: bool,
    jsonObjectSupported: bool,
    promptOnlySupported: bool,
    structuredJsonSchema: bool,
    structuredJsonObject: bool,
    toolCalling: bool,
    plainJsonPrompt: bool,
    nativeStrictness: bool,
    contractDigest: Option<string>,
    probeStatus: Status,
    probeResult: Status,
    lastError: Option<string>)
  {
    predicate Supports(m: Mode) {
      match m
      case Auto => false
      case Strict => structuredJsonSchema && nativeStrictness
      case JsonSchema => jsonSchemaSupported || structuredJsonSchema
      case ToolCall => toolCallSupported || toolCalling
      case JsonObject => jsonObjectSupported || structuredJsonObject
      case PromptOnly => promptOnlySupported || plainJsonPrompt
    }

    predicate HasPassed() {
      probeResult == Passed || probeStatus == Passed
    }

    /** Bound to the profile's identity and never to the clock. */
    predicate IsFresh(expected: Fingerprint) {
      && expected != NoFingerprint
      && (fingerprint == NoFingerprint || fingerprint == expected)
      && HasPassed()
    }

    /** Set both flags that record a concrete, non-strict mode. */
    function WithMode(m: Mode, on: bool): Capabilities
      requires m != Auto && m != Strict
    {
      match m
      case JsonSchema => this.(jsonSchemaSupported := on, structuredJsonSchema := on)
      case ToolCall => this.(toolCallSupported := on, toolCalling := on)
      case JsonObject => this.(jsonObjectSupported := on, structuredJsonObject := on)
      case PromptOnly => this.(promptOnlySupported := on, plainJsonPrompt := on)
    }

    /** None for the source's ValueError, and for the KeyError a strict mode runs into. */
    function AfterSuccessfulFallback(failed: Mode, successful: Mode, error: string): Option<Capabilities> {
      if failed == Auto || successful == Auto || failed == successful then None
      else if failed == Strict || successful == Strict then None
      else
        var flags := WithMode(failed, false).WithMode(successful, true);
        var strictness :=
          if failed == JsonSchema then false
          else if successful == JsonSchema then true
          else nativeStrictness;
        Some(flags.(nativeStrictness := strictness, mode := successful, lastError := Some(error)))
    }
  }

  /** A recorded fallback trades exactly the two modes and keeps the observation's identity and verdict. */
  lemma FallbackTrades(c: Capabilities, failed: Mode, successful: Mode, error: string)
    requires c.AfterSuccessfulFallback(failed, successful, error).Some?
    ensures var d := c.AfterSuccessfulFallback(failed, successful, error).value;
      && !d.Supports(failed)
      && d.Supports(successful)
      && (forall m :: m != failed && m != successful && m != Strict ==> d.Supports(m) == c.Supports(m))
      && (d.Supports(Strict) ==> c.Supports(Strict) || successful == JsonSchema)
      && d.fingerprint == c.fingerprint
      && (forall f :: d.IsFresh(f) == c.IsFresh(f))
  {
  }

  /** It also records the mode that worked and the error of the other, and nothing else of the observation changes. */
  lemma FallbackRecords(c: Capabilities, failed: Mode, successful: Mode, error: string)
    ensures c.AfterSuccessfulFallback(failed, successful, error).Some? <==>
            failed != successful && {failed, successful} !! {Auto, Strict}
    ensures c.AfterSuccessfulFallback(failed, successful, error).Some? ==>
              var d := c.AfterSuccessfulFallback(failed, successful, error).value;
              && d.mode == successful && d.lastError == Some(error)
              && d.contractDigest == c.contractDigest
              && d.probeStatus == c.probeStatus && d.probeResult == c.probeResult
  {
    assert failed in {failed, successful} && successful in {failed, successful};
  }
}
