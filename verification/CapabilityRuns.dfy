/** Whole runs of the capability cache: a fresh observation always goes back to a passing probe. */
module CapabilityRuns {
  import opened Text
  import opened Profiles
  import opened ProfileStore

  datatype Action =
    | Upsert(p: Profile)
    | Remove(id: string)
    | Probe(r: ProbeRequest, w: World)
    | Fallback(id: string, failed: Mode, successful: Mode, error: string)
    | Invalidate(id: string, reason: string)
    | ProbeError(id: string, error: string)

  function Apply(t: Tables, a: Action): Tables {
    match a
    case Upsert(p) => AfterUpsert(t, p)
    case Remove(id) => AfterRemove(t, id)
    case Probe(r, w) => AfterProbe(t, r, w)
    case Fallback(id, failed, successful, error) => AfterFallback(t, id, failed, successful, error)
    case Invalidate(id, reason) => AfterInvalidate(t, id, reason)
    case ProbeError(id, error) => AfterProbeError(t, id, error)
  }

  /** The tables after a whole run. */
  function After(t: Tables, run: seq<Action>): Tables {
    if |run| == 0 then t else Apply(After(t, run[..|run| - 1]), run[|run| - 1])
  }

  /** Every observation belongs to a stored profile. */
  ghost predicate Linked(t: Tables) {
    t.capabilities.Keys <= t.profiles.Keys
  }

  /** Rows written before fingerprints existed carry none; nothing else starts out as passed. */
  ghost predicate Initial(t: Tables) {
    && Linked(t)
    && forall id :: id in t.capabilities && t.capabilities[id].fingerprint != NoFingerprint ==>
         !t.capabilities[id].HasPassed()
  }

  ghost predicate Vouched(t: Tables, id: string, f: Fingerprint) {
    && id in t.capabilities
    && t.capabilities[id].HasPassed()
    && t.capabilities[id].fingerprint == f
  }

  /** `run[i]` is a probe of profile `id` that passes under fingerprint `f`. */
  ghost predicate PassesAt(t: Tables, run: seq<Action>, i: nat, id: string, f: Fingerprint)
    requires i < |run|
  {
    && run[i].Probe?
    && run[i].r.profile.id == id
    && FingerprintOf(run[i].r.profile, run[i].r.override) == f
    && Passes(After(t, run[..i]), run[i].r, run[i].w)
  }

  /** An action that neither withdraws the observation nor changes the profile's identity away from `f`. */
  ghost predicate Harmless(before: Tables, a: Action, id: string, f: Fingerprint) {
    match a
    case Upsert(p) =>
      p.id == id ==> id in before.profiles && (before.profiles[id] == p || FingerprintOf(p, None) == f)
    case Remove(gone) => gone != id
    case Invalidate(target, _) => target != id
    case _ => true
  }

  /** `run[i]` established the observation and nothing since disturbed it. */
  ghost predicate EstablishedBy(t: Tables, run: seq<Action>, i: nat, id: string, f: Fingerprint) {
    && i < |run|
    && PassesAt(t, run, i, id, f)
    && forall j :: i < j < |run| ==> Harmless(After(t, run[..j]), run[j], id, f)
  }

  lemma LinkedStep(t: Tables, a: Action)
    requires Linked(t)
    ensures Linked(Apply(t, a))
  {
  }

  lemma {:induction false} LinkedAfter(t: Tables, run: seq<Action>)
    requires Linked(t)
    ensures Linked(After(t, run))
  {
    if |run| > 0 {
      LinkedAfter(t, run[..|run| - 1]);
      LinkedStep(After(t, run[..|run| - 1]), run[|run| - 1]);
    }
  }

  /** One step: an observation vouched for afterwards was vouched for before, or the step is a passing probe. */
  lemma VouchedStep(t: Tables, a: Action, id: string, f: Fingerprint)
    requires Linked(t) && f != NoFingerprint && Vouched(Apply(t, a), id, f)
    ensures || (Vouched(t, id, f) && Harmless(t, a, id, f))
            || (&& a.Probe? && a.r.profile.id == id
                && FingerprintOf(a.r.profile, a.r.override) == f && Passes(t, a.r, a.w))
  {
    hide AfterProbe, AfterUpsert, AfterFallback, Passes, CacheHit;
    match a {
      case Upsert(p) => UpsertStep(t, p, id, f);
      case Probe(r, w) => ProbeStep(t, r, w, id, f);
      case Fallback(target, failed, successful, error) => FallbackStep(t, target, failed, successful, error, id, f);
      case _ =>
    }
  }

  lemma UpsertStep(t: Tables, p: Profile, id: string, f: Fingerprint)
    requires Linked(t) && f != NoFingerprint && Vouched(AfterUpsert(t, p), id, f)
    ensures Vouched(t, id, f) && Harmless(t, Upsert(p), id, f)
  {
  }

  lemma FallbackStep(
    t: Tables, target: string, failed: Mode, successful: Mode, error: string, id: string, f: Fingerprint)
    requires Vouched(AfterFallback(t, target, failed, successful, error), id, f)
    ensures Vouched(t, id, f)
  {
  }

  lemma ProbeStep(t: Tables, r: ProbeRequest, w: World, id: string, f: Fingerprint)
    requires f != NoFingerprint && Vouched(AfterProbe(t, r, w), id, f)
    ensures || Vouched(t, id, f)
            || (r.profile.id == id && FingerprintOf(r.profile, r.override) == f && Passes(t, r, w))
  {
  }

  /**
   In every run, a stored observation that has passed under fingerprint `f` was established by a probe
   of that profile passing under `f`, with no withdrawal and no change of identity since.
   */
  lemma {:induction false} VouchedWasProbed(t: Tables, run: seq<Action>, id: string, f: Fingerprint)
    requires Initial(t) && f != NoFingerprint && Vouched(After(t, run), id, f)
    ensures exists i: nat :: EstablishedBy(t, run, i, id, f)
  {
    hide Apply, Passes, Harmless;
    assert |run| > 0;
    var last := |run| - 1;
    var init := run[..last];
    LinkedAfter(t, init);
    VouchedStep(After(t, init), run[last], id, f);
    if run[last].Probe? && PassesAt(t, run, last, id, f) {
      assert EstablishedBy(t, run, last, id, f);
    } else {
      VouchedWasProbed(t, init, id, f);
      var i: nat :| EstablishedBy(t, init, i, id, f);
      assert forall j :: 0 <= j <= last ==> init[..j] == run[..j];
      assert EstablishedBy(t, run, i, id, f);
    }
  }

  /** An action that neither withdraws an observation of this profile nor replaces it by another identity. */
  ghost predicate Undisturbing(before: Tables, a: Action, p: Profile, override: Option<Mode>) {
    match a
    case Upsert(q) =>
      q.id == p.id ==>
        p.id in before.profiles && (before.profiles[p.id] == q || SameIdentity(q, None, p, override))
    case Remove(gone) => gone != p.id
    case Invalidate(target, _) => target != p.id
    case _ => true
  }

  /** `run[i]` is a passing probe of this very configuration, and nothing since disturbed what it found. */
  ghost predicate ProbedAs(t: Tables, run: seq<Action>, i: nat, p: Profile, override: Option<Mode>) {
    && i < |run| && run[i].Probe? && run[i].r.profile.id == p.id
    && SameIdentity(run[i].r.profile, run[i].r.override, p, override)
    && Passes(After(t, run[..i]), run[i].r, run[i].w)
    && forall j :: i < j < |run| ==> Undisturbing(After(t, run[..j]), run[j], p, override)
  }

  lemma EstablishedIsProbed(t: Tables, run: seq<Action>, i: nat, p: Profile, override: Option<Mode>)
    requires EstablishedBy(t, run, i, p.id, FingerprintOf(p, override))
    ensures ProbedAs(t, run, i, p, override)
  {
    hide Passes, After, SameIdentity, FingerprintOf;
    SameFingerprint(run[i].r.profile, run[i].r.override, p, override);
    forall j | i < j < |run| ensures Undisturbing(After(t, run[..j]), run[j], p, override) {
      if run[j].Upsert? {
        SameFingerprint(run[j].p, None, p, override);
      }
    }
  }

  /** The observation handed out for a profile goes back to a passing probe of that very configuration. */
  lemma FreshLookupWasProbed(t: Tables, run: seq<Action>, p: Profile)
    requires Initial(t)
    requires var found := SelectedForProfile(After(t, run), p, true);
             found.Some? && found.value.fingerprint != NoFingerprint
    ensures exists i: nat :: ProbedAs(t, run, i, p, None)
  {
    VouchedWasProbed(t, run, p.id, FingerprintOf(p, None));
    var i: nat :| EstablishedBy(t, run, i, p.id, FingerprintOf(p, None));
    EstablishedIsProbed(t, run, i, p, None);
  }

  /**
   Changing a profile and changing it back does not revive the old observation: once any part of its
   identity was something else, a fresh lookup is backed by a probe that passed after that change.
   */
  lemma NoRevival(t: Tables, run: seq<Action>, j: nat, p: Profile)
    requires Initial(t) && j < |run| && run[j].Upsert? && run[j].p.id == p.id
    requires var before := After(t, run[..j]);
             !(p.id in before.profiles && before.profiles[p.id] == run[j].p)
    requires !SameIdentity(run[j].p, None, p, None)
    requires var found := SelectedForProfile(After(t, run), p, true);
             found.Some? && found.value.fingerprint != NoFingerprint
    ensures exists i: nat :: j < i && ProbedAs(t, run, i, p, None)
  {
    hide SelectedForProfile, After, Initial, SameIdentity;
    FreshLookupWasProbed(t, run, p);
    var i: nat :| ProbedAs(t, run, i, p, None);
    assert !Undisturbing(After(t, run[..j]), run[j], p, None);
  }

  /** A probe that passes under the profile's own fingerprint is handed out from then on, with its mode. */
  lemma PassingProbeIsFresh(t: Tables, r: ProbeRequest, w: World)
    requires r.profile.id in t.profiles && r.override.None? && Passes(t, r, w)
    ensures var found := SelectedForProfile(AfterProbe(t, r, w), r.profile, true);
            found.Some? && found.value.Supports(Strict) && found.value.fingerprint == FingerprintOf(r.profile, None)
  {
    assert ProbeModes(r.override) == [Strict] && [Strict][1..] == [];
    assert FirstAnswered([Strict], w.answers) == Strict;
  }

  /**
   What a passing probe records: fresh under the probed identity, for the probed contract, and supporting
   exactly the mode that was answered, where an answered schema mode counts as strict transport too.
   */
  lemma PassingProbeSupports(t: Tables, r: ProbeRequest, w: World, m: Mode)
    requires r.profile.id in t.profiles && Passes(t, r, w)
    ensures r.profile.id in AfterProbe(t, r, w).capabilities
    ensures var c := AfterProbe(t, r, w).capabilities[r.profile.id];
            var selected := ProbeModes(r.override)[0];
            && c.IsFresh(FingerprintOf(r.profile, r.override))
            && c.contractDigest == Some(r.contractDigest)
            && (c.Supports(m) <==>
                m != Auto && (m == selected || {m, selected} == {Strict, JsonSchema}))
  {
    var selected := ProbeModes(r.override)[0];
    assert ProbeModes(r.override) == [selected] && [selected][1..] == [];
    assert FirstAnswered([selected], w.answers) == selected;
    assert m in {m, selected} && selected in {m, selected};
    assert {m, selected} == {Strict, JsonSchema} <==>
           (m == Strict && selected == JsonSchema) || (m == JsonSchema && selected == Strict) by {
      assert Strict in {Strict, JsonSchema} && JsonSchema in {Strict, JsonSchema};
    }
  }

  /** An outage does not withdraw an observation made under the same fingerprint. */
  lemma FailedProbeKeepsObservation(t: Tables, r: ProbeRequest, w: World)
    requires Linked(t) && !Passes(t, r, w)
    requires Vouched(t, r.profile.id, FingerprintOf(r.profile, r.override))
    requires t.capabilities[r.profile.id].probeStatus == Passed
    ensures Linked(AfterProbe(t, r, w)) && r.profile.id in AfterProbe(t, r, w).capabilities
    ensures var kept := AfterProbe(t, r, w).capabilities[r.profile.id];
            kept == t.capabilities[r.profile.id].(lastError := kept.lastError)
  {
    hide AfterProbe, AfterProbeError, Passes;
    var error := FailedProbeOutcome(t, r, w);
    ErrorKeepsObservation(t, r.profile.id, error);
  }

  /** A failing probe of a passed observation records an error at most. */
  lemma FailedProbeOutcome(t: Tables, r: ProbeRequest, w: World) returns (error: string)
    requires !Passes(t, r, w) && Vouched(t, r.profile.id, FingerprintOf(r.profile, r.override))
    requires t.capabilities[r.profile.id].probeStatus == Passed
    ensures AfterProbe(t, r, w) == t || AfterProbe(t, r, w) == AfterProbeError(t, r.profile.id, error)
  {
    hide FirstAnswered, LastError, Observed, Unreached, AfterProbeError, AfterUpsertCapabilities, CacheHit;
    var last := LastError(ProbeModes(r.override), w.answers);
    error := if !w.secretPresent then "secret_missing"
             else if w.factoryError.Some? then w.factoryError.value
             else if last.Some? then last.value
             else "probe_failed";
  }

  lemma ErrorKeepsObservation(t: Tables, id: string, error: string)
    requires Linked(t) && id in t.capabilities
    ensures Linked(AfterProbeError(t, id, error)) && id in AfterProbeError(t, id, error).capabilities
    ensures AfterProbeError(t, id, error).capabilities[id] == t.capabilities[id].(lastError := Some(error))
  {
  }
}
