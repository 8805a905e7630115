/** Runs of automatic requests: how often the recorded mode can fall before the next probe. */
module Downgrades {
  import opened Text
  import opened Profiles
  import opened ProfileStore
  import opened StructuredJson

  /** A request in which Local chooses the mode itself. */
  predicate Automatic(p: Profile, q: Request) {
    && p.preference == Auto
    && q.responseFormat.None?
    && q.requirement.None?
    && (q.mode.None? || q.mode == Some(Auto))
    && (q.structuredOutputMode.None? || q.structuredOutputMode == Some(Auto))
  }

  function AutoSelection(t: Tables, p: Profile): Option<Mode> {
    SelectMode(t, p, None, None)
  }

  function AutoFallback(p: Profile, selected: Mode): Option<Mode> {
    FallbackMode(p, None, None, selected)
  }

  /** What `GenerateJson` plans for an automatic request depends on the store alone. */
  lemma AutomaticPlan(w: StructuredJson.World, t: Tables, p: Profile, q: Request)
    requires Automatic(p, q) && PlanFor(w, t, p, q).Ready?
    ensures var plan := PlanFor(w, t, p, q).plan;
      && !plan.strict
      && AutoSelection(t, p) == Some(plan.selected)
      && FallbackMode(p, plan.requested, q.responseFormat, plan.selected) == AutoFallback(p, plan.selected)
  {
    hide LoadCapabilities, FirstSupported, CanBuild, RequirementValid;
  }

  /** One automatic request: `Some(code)` if its first execution failed and its fallback succeeded. */
  function AfterRequest(t: Tables, p: Profile, fell: Option<string>): Tables {
    var selected := AutoSelection(t, p);
    if fell.Some? && selected.Some? && AutoFallback(p, selected.value).Some? then
      AfterFallback(t, p.id, selected.value, AutoFallback(p, selected.value).value, fell.value)
    else t
  }

  predicate Falls(t: Tables, p: Profile, fell: Option<string>) {
    fell.Some? && AutoSelection(t, p).Some? && AutoFallback(p, AutoSelection(t, p).value).Some?
  }

  function AfterRequests(t: Tables, p: Profile, run: seq<Option<string>>): Tables
    decreases |run|
  {
    if |run| == 0 then t else AfterRequests(AfterRequest(t, p, run[0]), p, run[1..])
  }

  function DowngradeCount(t: Tables, p: Profile, run: seq<Option<string>>): nat
    decreases |run|
  {
    if |run| == 0 then 0
    else (if Falls(t, p, run[0]) then 1 else 0) + DowngradeCount(AfterRequest(t, p, run[0]), p, run[1..])
  }

  /** A fresh persisted observation of an automatic profile. */
  ghost predicate FreshAuto(t: Tables, p: Profile) {
    && p.preference == Auto
    && p.id in t.profiles
    && p.id in t.capabilities
    && t.capabilities[p.id].IsFresh(FingerprintOf(p, None))
  }

  function Bit(b: bool): nat { if b then 1 else 0 }

  /** Modes that can still be given up; a profile on strict transport never falls back. */
  function Headroom(c: Capabilities): nat {
    if c.Supports(Strict) then 0
    else
      Bit(c.Supports(JsonSchema)) + Bit(c.Supports(ToolCall))
      + Bit(c.Supports(JsonSchema) || c.Supports(ToolCall) || c.Supports(JsonObject) || !c.Supports(PromptOnly))
  }

  /** The selection is the most preferred supported mode. */
  lemma SelectionIs(t: Tables, p: Profile)
    requires FreshAuto(t, p)
    ensures var c := t.capabilities[p.id];
      AutoSelection(t, p) ==
        if c.Supports(Strict) then Some(Strict)
        else if c.Supports(JsonSchema) then Some(JsonSchema)
        else if c.Supports(ToolCall) then Some(ToolCall)
        else if c.Supports(JsonObject) then Some(JsonObject)
        else if c.Supports(PromptOnly) then Some(PromptOnly)
        else if c.probeStatus == Passed then None
        else Some(JsonObject)
  {
    var c := t.capabilities[p.id];
    assert LoadCapabilities(t, p, None) == Some(c);
    PreferFirst(c, Strict, [JsonSchema, ToolCall, JsonObject, PromptOnly]);
    PreferFirst(c, JsonSchema, [ToolCall, JsonObject, PromptOnly]);
    PreferFirst(c, ToolCall, [JsonObject, PromptOnly]);
    PreferFirst(c, JsonObject, [PromptOnly]);
    PreferFirst(c, PromptOnly, []);
  }

  lemma PreferFirst(c: Capabilities, m: Mode, rest: seq<Mode>)
    ensures FirstSupported(c, [m] + rest) == if c.Supports(m) then Some(m) else FirstSupported(c, rest)
  {
    assert ([m] + rest)[1..] == rest;
  }

  /** A downgrade keeps the observation fresh, uses up headroom, and fixes the next selection. */
  lemma DowngradeStep(t: Tables, p: Profile, fell: Option<string>)
    requires FreshAuto(t, p)
    ensures FreshAuto(AfterRequest(t, p, fell), p)
    ensures !Falls(t, p, fell) ==> AfterRequest(t, p, fell) == t
    ensures Falls(t, p, fell) ==>
              && Headroom(AfterRequest(t, p, fell).capabilities[p.id]) < Headroom(t.capabilities[p.id])
              && AutoSelection(AfterRequest(t, p, fell), p) ==
                   if AutoSelection(t, p) == Some(JsonSchema) && t.capabilities[p.id].Supports(ToolCall)
                   then Some(ToolCall)
                   else AutoFallback(p, AutoSelection(t, p).value)
  {
    hide SelectMode, LoadCapabilities, FirstSupported;
    SelectionIs(t, p);
    if Falls(t, p, fell) {
      var c := t.capabilities[p.id];
      var selected := AutoSelection(t, p).value;
      var fallback := AutoFallback(p, selected).value;
      assert c.AfterSuccessfulFallback(selected, fallback, fell.value).Some?;
      FallbackTrades(c, selected, fallback, fell.value);
      SelectionIs(AfterRequest(t, p, fell), p);
    }
  }

  /** Any run of automatic requests downgrades at most three times, and the observation stays fresh. */
  lemma {:induction false} DowngradesBounded(t: Tables, p: Profile, run: seq<Option<string>>)
    requires FreshAuto(t, p)
    ensures FreshAuto(AfterRequests(t, p, run), p)
    ensures DowngradeCount(t, p, run) <= Headroom(t.capabilities[p.id]) <= 3
    decreases |run|
  {
    hide Headroom, AfterRequest, Falls;
    HeadroomAtMostThree(t.capabilities[p.id]);
    if |run| > 0 {
      DowngradeStep(t, p, run[0]);
      DowngradesBounded(AfterRequest(t, p, run[0]), p, run[1..]);
    }
  }

  lemma HeadroomAtMostThree(c: Capabilities)
    ensures Headroom(c) <= 3
  {
  }

  /** The bound is attained: from schema and tool support, three failures lead down to plain prompting. */
  lemma ThreeAttained(t: Tables, p: Profile, code: string)
    requires FreshAuto(t, p) && !t.capabilities[p.id].Supports(Strict)
    requires t.capabilities[p.id].Supports(JsonSchema) && t.capabilities[p.id].Supports(ToolCall)
    ensures DowngradeCount(t, p, [Some(code), Some(code), Some(code)]) == 3
    ensures AutoSelection(AfterRequests(t, p, [Some(code), Some(code), Some(code)]), p) == Some(PromptOnly)
  {
    hide AfterRequest, Falls, SelectMode;
    var fell := Some(code);
    var t1 := AfterRequest(t, p, fell);
    var t2 := AfterRequest(t1, p, fell);
    var t3 := AfterRequest(t2, p, fell);
    SelectionIs(t, p);
    OneFall(t, p, code);
    OneFall(t1, p, code);
    OneFall(t2, p, code);
    var run := [fell, fell, fell];
    assert run[1..] == [fell, fell] && [fell, fell][1..] == [fell] && [fell][1..] == [];
    assert DowngradeCount(t3, p, []) == 0;
    assert DowngradeCount(t2, p, [fell]) == 1;
    assert DowngradeCount(t1, p, [fell, fell]) == 2;
    assert AfterRequests(t2, p, [fell]) == t3;
    assert AfterRequests(t1, p, [fell, fell]) == t3;
  }

  lemma OneFall(t: Tables, p: Profile, code: string)
    requires FreshAuto(t, p)
    requires AutoSelection(t, p) in {Some(JsonSchema), Some(ToolCall), Some(JsonObject)}
    ensures Falls(t, p, Some(code)) && FreshAuto(AfterRequest(t, p, Some(code)), p)
    ensures AutoSelection(AfterRequest(t, p, Some(code)), p) ==
              if AutoSelection(t, p) == Some(JsonSchema) && t.capabilities[p.id].Supports(ToolCall) then Some(ToolCall)
              else if AutoSelection(t, p) == Some(JsonObject) then Some(PromptOnly)
              else Some(JsonObject)
  {
    hide AfterRequest, SelectMode;
    DowngradeStep(t, p, Some(code));
  }

  /** The downgrade an executed automatic request records is the step of the run model. */
  lemma PlannedDowngrade(w: StructuredJson.World, t: Tables, p: Profile, q: Request)
    requires Automatic(p, q) && PlanFor(w, t, p, q).Ready?
    requires |PlannedExecutions(w, p, q, PlanFor(w, t, p, q).plan)| == 2
    ensures var executions := PlannedExecutions(w, p, q, PlanFor(w, t, p, q).plan);
      && AutoSelection(t, p) == Some(executions[0].0)
      && AutoFallback(p, executions[0].0) == Some(executions[1].0)
  {
    hide PlanFor, FallbackMode, SelectMode;
    AutomaticPlan(w, t, p, q);
  }

  /** `generate_json` on an automatic request is one step of the run model. */
  method AutomaticRequest(w: StructuredJson.World, store: InferenceProfileStore, p: Profile, q: Request)
    returns (o: Outcome, trace: seq<Event>, fell: Option<string>)
    requires Automatic(p, q)
    modifies store
    ensures store.View() == AfterRequest(old(store.View()), p, fell)
    ensures fell.Some? <==> AnsweredByFallback(o, trace)
    ensures fell.Some? ==> Falls(old(store.View()), p, fell)
  {
    hide PlanFor, PlannedExecutions, Executions, Reported, GateOpen, SelectMode, FallbackMode, AfterFallback;
    var t := store.View();
    o, trace := GenerateJson(w, store, p, q);
    fell := None;
    if o.Ok? && |Executions(trace)| == 2 {
      fell := Some(w.errorCode(w.answers(0)));
      ReadyWhenExecuted(w, t, p, q);
      PlannedDowngrade(w, t, p, q);
    }
  }

  /** A result that took the second execution. */
  predicate AnsweredByFallback(o: Outcome, trace: seq<Event>) {
    o.Ok? && |Executions(trace)| == 2
  }

  lemma ReadyWhenExecuted(w: StructuredJson.World, t: Tables, p: Profile, q: Request)
    requires Blocked(w, t, p, q).None?
    ensures PlanFor(w, t, p, q).Ready?
  {
    hide PlanFor;
  }

  /**
   Any run of automatic requests against any provider: at most three of them are answered only by their
   fallback, and the observation is still fresh afterwards.
   */
  method AutomaticRequests(
    store: InferenceProfileStore, p: Profile, requests: seq<(StructuredJson.World, Request)>)
    returns (replies: seq<(Outcome, seq<Event>)>, run: seq<Option<string>>)
    requires FreshAuto(store.View(), p) && forall i :: 0 <= i < |requests| ==> Automatic(p, requests[i].1)
    modifies store
    ensures |replies| == |run| == |requests|
    ensures forall i :: 0 <= i < |run| ==> (run[i].Some? <==> AnsweredByFallback(replies[i].0, replies[i].1))
    ensures store.View() == AfterRequests(old(store.View()), p, run)
    ensures DowngradeCount(old(store.View()), p, run) == FallbackCount(replies) <= 3
    ensures FreshAuto(store.View(), p)
  {
    hide Headroom, AfterRequest, Falls, Automatic, AnsweredByFallback, FreshAuto, AfterRequests, DowngradeCount;
    replies, run := [], [];
    ghost var t0 := store.View();
    NoRequests(t0, p);
    for k := 0 to |requests|
      invariant |replies| == |run| == k && FreshAuto(store.View(), p)
      invariant forall i :: 0 <= i < k ==> (run[i].Some? <==> AnsweredByFallback(replies[i].0, replies[i].1))
      invariant store.View() == AfterRequests(t0, p, run)
      invariant DowngradeCount(t0, p, run) == FallbackCount(replies)
    {
      ghost var t := store.View();
      var o, trace, fell := AutomaticRequest(requests[k].0, store, p, requests[k].1);
      DowngradeStep(t, p, fell);
      NoFallNoStep(t, p);
      RunSnoc(t0, p, run, fell);
      FallbackSnoc(replies, o, trace);
      replies, run := replies + [(o, trace)], run + [fell];
    }
    DowngradesBounded(t0, p, run);
  }

  /** How many replies took the fallback. */
  function FallbackCount(replies: seq<(Outcome, seq<Event>)>): nat {
    if |replies| == 0 then 0
    else
      var last := replies[|replies| - 1];
      FallbackCount(replies[..|replies| - 1]) + if AnsweredByFallback(last.0, last.1) then 1 else 0
  }

  lemma FallbackSnoc(replies: seq<(Outcome, seq<Event>)>, o: Outcome, trace: seq<Event>)
    ensures FallbackCount(replies + [(o, trace)])
         == FallbackCount(replies) + if AnsweredByFallback(o, trace) then 1 else 0
  {
    hide AnsweredByFallback;
    assert (replies + [(o, trace)])[..|replies|] == replies;
  }

  lemma NoRequests(t: Tables, p: Profile)
    ensures AfterRequests(t, p, []) == t && DowngradeCount(t, p, []) == 0
  {
  }

  lemma {:induction false} RunSnoc(t: Tables, p: Profile, run: seq<Option<string>>, fell: Option<string>)
    ensures AfterRequests(t, p, run + [fell]) == AfterRequest(AfterRequests(t, p, run), p, fell)
    ensures DowngradeCount(t, p, run + [fell])
         == DowngradeCount(t, p, run) + if Falls(AfterRequests(t, p, run), p, fell) then 1 else 0
    decreases |run|
  {
    hide AfterRequest, Falls;
    if |run| == 0 {
      assert run + [fell] == [fell] && [fell][1..] == [];
    } else {
      assert (run + [fell])[1..] == run[1..] + [fell];
      RunSnoc(AfterRequest(t, p, run[0]), p, run[1..], fell);
    }
  }

  lemma NoFallNoStep(t: Tables, p: Profile)
    ensures !Falls(t, p, None)
  {
  }
}
