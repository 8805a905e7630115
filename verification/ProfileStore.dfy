/**
 The profile and capability tables (`profile_store.py`), the probe that fills them
 (`provider_probe.py`), and what every run of their operations keeps.
 */
module ProfileStore {
  import opened Text
  import opened Profiles

  /** Both tables; `capabilities` references `profiles` and is deleted with its row. */
  datatype Tables = Tables(profiles: map<string, Profile>, capabilities: map<string, Capabilities>)

  // ---------------------------------------------------------------- what each operation does to the tables

  function Invalidated(c: Capabilities, reason: string): Capabilities {
    c.(probeStatus := Unknown, probeResult := Unknown, lastError := Some(reason))
  }

  function AfterInvalidate(t: Tables, id: string, reason: string): Tables {
    if id in t.capabilities then
      t.(capabilities := t.capabilities[id := Invalidated(t.capabilities[id], reason)])
    else t
  }

  /** Whether replacing the stored profile makes the stored observation unusable. */
  predicate UpsertInvalidates(t: Tables, p: Profile) {
    && p.id in t.profiles
    && t.profiles[p.id] != p
    && p.id in t.capabilities
    && t.capabilities[p.id].fingerprint != NoFingerprint
    && t.capabilities[p.id].fingerprint != FingerprintOf(p, None)
  }

  /** The stored observation was made of this profile, with this override. */
  ghost predicate ObservedAs(t: Tables, id: string, q: Profile, override: Option<Mode>) {
    id in t.capabilities && t.capabilities[id].fingerprint == FingerprintOf(q, override)
  }

  function AfterUpsert(t: Tables, p: Profile): Tables {
    var stored := t.(profiles := t.profiles[p.id := p]);
    if UpsertInvalidates(t, p) then AfterInvalidate(stored, p.id, "profile_fingerprint_changed") else stored
  }

  function AfterRemove(t: Tables, id: string): Tables {
    Tables(t.profiles - {id}, t.capabilities - {id})
  }

  /** The foreign key refuses an observation of an unknown profile. */
  function AfterUpsertCapabilities(t: Tables, id: string, c: Capabilities): Tables {
    if id in t.profiles then t.(capabilities := t.capabilities[id := c]) else t
  }

  function AfterProbeError(t: Tables, id: string, error: string): Tables {
    if id in t.capabilities then
      t.(capabilities := t.capabilities[id := t.capabilities[id].(lastError := Some(error))])
    else t
  }

  function AfterFallback(t: Tables, id: string, failed: Mode, successful: Mode, error: string): Tables {
    if id !in t.capabilities then t
    else match t.capabilities[id].AfterSuccessfulFallback(failed, successful, error)
      case None => t
      case Some(updated) => AfterUpsertCapabilities(t, id, updated)
  }

  /** `get_capabilities(id, profile_fingerprint=expected, fresh_only=freshOnly)`. */
  function Selected(t: Tables, id: string, expected: Option<Fingerprint>, freshOnly: bool): Option<Capabilities> {
    if id !in t.capabilities then None
    else
      var c := t.capabilities[id];
      if expected.Some? && c.fingerprint != NoFingerprint && c.fingerprint != expected.value then None
      else if freshOnly && expected.Some? && !c.IsFresh(expected.value) then None
      else Some(c)
  }

  function SelectedForProfile(t: Tables, p: Profile, freshOnly: bool): Option<Capabilities> {
    Selected(t, p.id, Some(FingerprintOf(p, None)), freshOnly)
  }

  // ---------------------------------------------------------------- probing

  /** What a probe meets outside Local: the secret, the provider factory, and one answer per mode. */
  datatype World = World(
    secretPresent: bool,
    factoryError: Option<string>,
    answers: Mode -> Answer)

  datatype Answer = ObjectReturned | AnswerFailed(error: string)

  datatype ProbeRequest = ProbeRequest(profile: Profile, override: Option<Mode>, force: bool, contractDigest: string)

  /** An explicit override is tried alone; otherwise only the strict transport is tried. */
  function ProbeModes(override: Option<Mode>): seq<Mode> {
    if override.Some? && override.value != Auto then [override.value] else [Strict]
  }

  predicate CacheHit(t: Tables, r: ProbeRequest) {
    && !r.force
    && r.profile.id in t.capabilities
    && t.capabilities[r.profile.id].IsFresh(FingerprintOf(r.profile, r.override))
    && t.capabilities[r.profile.id].contractDigest == Some(r.contractDigest)
  }

  /** The first mode answered with an object, or Auto when none is. */
  function FirstAnswered(modes: seq<Mode>, answers: Mode -> Answer): Mode {
    if |modes| == 0 then Auto
    else if answers(modes[0]).ObjectReturned? then modes[0]
    else FirstAnswered(modes[1..], answers)
  }

  function Observed(r: ProbeRequest, selected: Mode, error: Option<string>): Capabilities {
    var schema := selected == Strict || selected == JsonSchema;
    var status := if selected != Auto then Passed else Failed;
    Capabilities(
      FingerprintOf(r.profile, r.override), selected,
      schema, selected == ToolCall, selected == JsonObject, selected == PromptOnly,
      schema, selected == JsonObject, selected == ToolCall, selected == PromptOnly, schema,
      Some(r.contractDigest), status, status, if selected != Auto then None else error)
  }

  /** A failure before any request: nothing was observed about the provider. */
  function Unreached(r: ProbeRequest, error: string): Capabilities {
    Capabilities(
      FingerprintOf(r.profile, None), Auto,
      false, false, false, false, false, false, false, false, false,
      Some(r.contractDigest), Failed, Failed, Some(error))
  }

  function AfterEarlyFailure(t: Tables, r: ProbeRequest, error: string): Tables {
    var id := r.profile.id;
    if id in t.capabilities && t.capabilities[id].probeStatus == Passed then AfterProbeError(t, id, error)
    else AfterUpsertCapabilities(t, id, Unreached(r, error))
  }

  predicate Reached(w: World) {
    w.secretPresent && w.factoryError.None?
  }

  /** A probe passes when it is really sent and some tried mode is answered with an object. */
  predicate Passes(t: Tables, r: ProbeRequest, w: World) {
    && !CacheHit(t, r)
    && Reached(w)
    && FirstAnswered(ProbeModes(r.override), w.answers) != Auto
  }

  function LastError(modes: seq<Mode>, answers: Mode -> Answer): Option<string> {
    if |modes| == 0 then None
    else match answers(modes[|modes| - 1])
      case ObjectReturned => None
      case AnswerFailed(error) => Some(error)
  }

  function AfterProbe(t: Tables, r: ProbeRequest, w: World): Tables {
    var id := r.profile.id;
    if CacheHit(t, r) then t
    else if !w.secretPresent then AfterEarlyFailure(t, r, "secret_missing")
    else if w.factoryError.Some? then AfterEarlyFailure(t, r, w.factoryError.value)
    else
      var modes := ProbeModes(r.override);
      var selected := FirstAnswered(modes, w.answers);
      var error := if selected != Auto then None else LastError(modes, w.answers);
      if selected == Auto && id in t.capabilities
         && t.capabilities[id].IsFresh(FingerprintOf(r.profile, r.override))
      then AfterProbeError(t, id, if error.Some? then error.value else "probe_failed")
      else AfterUpsertCapabilities(t, id, Observed(r, selected, error))
  }

  // ---------------------------------------------------------------- the store and the probe as they run

  class InferenceProfileStore {
    var profiles: map<string, Profile>
    var capabilities: map<string, Capabilities>

    function View(): Tables
      reads this
    {
      Tables(profiles, capabilities)
    }

    constructor ()
      ensures View() == Tables(map[], map[])
    {
      profiles, capabilities := map[], map[];
    }

    /**
     Replacing a profile by one of another identity withdraws the observation made of the old one;
     an observation of the same identity, and one of any other profile, stays as it is.
     */
    method Upsert(p: Profile)
      modifies this
      ensures View() == AfterUpsert(old(View()), p)
      ensures p.id in profiles && profiles[p.id] == p
      ensures forall q, override ::
                old(p.id in profiles && profiles[p.id] != p) && ObservedAs(old(View()), p.id, q, override) ==>
                  if SameIdentity(q, override, p, None) then capabilities == old(capabilities)
                  else p.id in capabilities && !capabilities[p.id].HasPassed()
      ensures forall id :: id != p.id && id in old(capabilities) ==>
                id in capabilities && capabilities[id] == old(capabilities)[id]
    {
      forall q, override | ObservedAs(View(), p.id, q, override)
        ensures capabilities[p.id].fingerprint == FingerprintOf(p, None) <==> SameIdentity(q, override, p, None)
        ensures capabilities[p.id].fingerprint != NoFingerprint
      {
        SameFingerprint(q, override, p, None);
      }
      var hadPrevious := p.id in profiles;
      var changed := hadPrevious && profiles[p.id] != p;
      profiles := profiles[p.id := p];
      if changed && p.id in capabilities {
        var stored := capabilities[p.id].fingerprint;
        if stored != NoFingerprint && stored != FingerprintOf(p, None) {
          var _ := InvalidateCapabilities(p.id, "profile_fingerprint_changed");
        }
      }
    }

    method InvalidateCapabilities(id: string, reason: string) returns (found: bool)
      modifies this
      ensures View() == AfterInvalidate(old(View()), id, reason)
      ensures found == (id in old(capabilities))
    {
      found := id in capabilities;
      if found {
        capabilities := capabilities[id := Invalidated(capabilities[id], reason)];
      }
    }

    method UpsertCapabilities(id: string, c: Capabilities)
      modifies this
      ensures View() == AfterUpsertCapabilities(old(View()), id, c)
    {
      if id in profiles {
        capabilities := capabilities[id := c];
      }
    }

    method RecordCapabilityFallback(id: string, failed: Mode, successful: Mode, error: string) returns (done: bool)
      modifies this
      ensures View() == AfterFallback(old(View()), id, failed, successful, error)
    {
      done := false;
      if id in capabilities {
        var updated := capabilities[id].AfterSuccessfulFallback(failed, successful, error);
        if updated.Some? {
          UpsertCapabilities(id, updated.value);
          done := true;
        }
      }
    }

    method RecordProbeError(id: string, error: string) returns (found: bool)
      modifies this
      ensures View() == AfterProbeError(old(View()), id, error)
    {
      found := id in capabilities;
      if found {
        capabilities := capabilities[id := capabilities[id].(lastError := Some(error))];
      }
    }

    method Remove(id: string)
      modifies this
      ensures View() == AfterRemove(old(View()), id)
    {
      profiles, capabilities := profiles - {id}, capabilities - {id};
    }

    /** `ProviderProbe.probe` on this store. */
    method Probe(r: ProbeRequest, w: World) returns (passed: bool)
      modifies this
      ensures View() == AfterProbe(old(View()), r, w)
      ensures passed == (CacheHit(old(View()), r) || Passes(old(View()), r, w))
    {
      var id := r.profile.id;
      var expected := FingerprintOf(r.profile, r.override);
      var cached := id in capabilities && capabilities[id].IsFresh(expected);
      if !r.force && cached && capabilities[id].contractDigest == Some(r.contractDigest) {
        return true;
      }
      if !w.secretPresent || w.factoryError.Some? {
        var code := if !w.secretPresent then "secret_missing" else w.factoryError.value;
        if id in capabilities && capabilities[id].probeStatus == Passed {
          var _ := RecordProbeError(id, code);
        } else {
          UpsertCapabilities(id, Unreached(r, code));
        }
        return false;
      }
      var modes := ProbeModes(r.override);
      var selected, error := TryModes(modes, w.answers);
      passed := selected != Auto;
      if !passed && cached {
        var _ := RecordProbeError(id, if error.Some? then error.value else "probe_failed");
      } else {
        UpsertCapabilities(id, Observed(r, selected, if passed then None else error));
      }
    }
  }

  /** The probe loop: stop at the first mode answered with an object, remembering the last error. */
  method TryModes(modes: seq<Mode>, answers: Mode -> Answer) returns (selected: Mode, error: Option<string>)
    requires Auto !in modes
    ensures selected == FirstAnswered(modes, answers)
    ensures selected == Auto ==> error == LastError(modes, answers)
    ensures selected == Auto <==> forall j :: 0 <= j < |modes| ==> answers(modes[j]).AnswerFailed?
    ensures selected != Auto ==>
              exists k :: 0 <= k < |modes| && modes[k] == selected && answers(modes[k]).ObjectReturned?
                          && forall j :: 0 <= j < k ==> answers(modes[j]).AnswerFailed?
  {
    selected, error := Auto, None;
    for k := 0 to |modes|
      invariant FirstAnswered(modes, answers) == FirstAnswered(modes[k..], answers)
      invariant error == LastError(modes[..k], answers) || k == 0
      invariant k > 0 ==> answers(modes[k - 1]).AnswerFailed?
      invariant k == 0 ==> error == None
      invariant forall j :: 0 <= j < k ==> answers(modes[j]).AnswerFailed?
    {
      match answers(modes[k]) {
        case ObjectReturned =>
          return modes[k], error;
        case AnswerFailed(code) =>
          error := Some(code);
      }
      assert modes[k..][1..] == modes[k + 1..];
    }
    assert modes[..|modes|] == modes;
  }
}
