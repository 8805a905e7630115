/** What an open strict gate goes back to, over whole runs of the capability cache. */
module StrictGate {
  import opened Text
  import opened Profiles
  import opened ProfileStore
  import opened CapabilityRuns
  import opened StructuredJson

  /** The observation behind an open gate, unless it predates fingerprints, was probed in strict mode. */
  lemma OpenGateWasProbed(t: Tables, run: seq<Action>, p: Profile, plan: Plan)
    requires Initial(t) && plan.requested == Some(Strict) && GateOpen(After(t, run), p, plan)
    requires After(t, run).capabilities[p.id].fingerprint != NoFingerprint
    ensures exists i: nat :: ProbedAs(t, run, i, p, Some(Strict))
  {
    VouchedWasProbed(t, run, p.id, FingerprintOf(p, Some(Strict)));
    var i: nat :| EstablishedBy(t, run, i, p.id, FingerprintOf(p, Some(Strict)));
    EstablishedIsProbed(t, run, i, p, Some(Strict));
  }

  /** A probe under the profile's own, different preference does not open the strict gate. */
  lemma OwnProbeKeepsGateShut(t: Tables, p: Profile, plan: Plan)
    requires plan.requested == Some(Strict) && p.preference != Strict
    requires p.id in t.capabilities && t.capabilities[p.id].fingerprint == FingerprintOf(p, None)
    ensures !GateOpen(t, p, plan)
  {
    assert FingerprintOf(p, None).material.preference != FingerprintOf(p, Some(Strict)).material.preference;
  }
}
