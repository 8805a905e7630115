/** What the plan, the gate, the fallback and the result of `generate_json` come to, in terms of their inputs. */
module GenerationLaws {
  import opened Text
  import opened JsonValues
  import opened SchemaMeaning
  import opened SchemaChecker
  import opened SchemaFaults
  import opened StrictProfile
  import opened Profiles
  import opened ProfileStore
  import opened StructuredJson

  // ---------------------------------------------------------------- planning

  /** The output budget is tested before everything else and on its own. */
  lemma OutputBudget(w: StructuredJson.World, t: Tables, p: Profile, q: Request)
    ensures PlanFor(w, t, p, q) == Refused(OutputBudgetExceeded) <==> q.maxOutputTokens > p.maxOutputTokens
  {
    hide Normalize, SelectMode, RequirementValid, CanBuild;
  }

  ghost predicate FormatIs(q: Request, name: string) {
    q.responseFormat.Some? && Get(q.responseFormat.value, "type") == Some(Str(name))
  }

  /** The caller names this mode, under either argument. */
  ghost predicate Names(q: Request, m: Mode) {
    q.mode == Some(m) || (q.mode.None? && q.structuredOutputMode == Some(m))
  }

  /** Nothing in the request says how the answer is to be structured. */
  ghost predicate SaysNothing(q: Request) {
    q.requirement.None? && q.responseFormat.None? && q.mode.None? && q.structuredOutputMode.None?
  }

  /** The mode is left to what is known of the provider; naming `auto` overrides the profile's preference. */
  ghost predicate LeavesOpen(p: Profile, q: Request) {
    q.requirement.None? && q.responseFormat.None? && (Names(q, Auto) || (SaysNothing(q) && p.preference == Auto))
  }

  /** What an admitted request asks for decides its mode, then the profile, then what is known of the provider. */
  lemma PlannedMode(w: StructuredJson.World, t: Tables, p: Profile, q: Request)
    requires PlanFor(w, t, p, q).Ready?
    ensures var selected := PlanFor(w, t, p, q).plan.selected;
      && (q.requirement.Some? ==> selected == Strict)
      && (FormatIs(q, "json_object") ==> selected == JsonObject)
      && (FormatIs(q, "json_schema") && q.requirement.None? ==> selected == JsonSchema)
      && (q.responseFormat.None? ==> forall m :: Names(q, m) && m != Auto ==> selected == m)
      && (SaysNothing(q) && p.preference != Auto ==> selected == p.preference)
      && (LeavesOpen(p, q) && p.id !in t.capabilities ==> selected == JsonObject)
  {
    hide RequirementValid, LegacyContract, FirstSupported, CanBuild;
    assert |"json_object"| == |"json_schema"| && "json_object"[5] != "json_schema"[5];
  }

  /** A request whose two mode arguments disagree, or whose response format is of another type, is refused. */
  lemma InvalidRequests(w: StructuredJson.World, t: Tables, p: Profile, q: Request)
    requires || (q.mode.Some? && q.structuredOutputMode.Some? && q.mode != q.structuredOutputMode)
             || (q.responseFormat.Some? && !FormatIs(q, "json_object") && !FormatIs(q, "json_schema"))
             || (q.requirement.Some? && (exists m :: Names(q, m) && m != Auto && m != Strict))
    requires q.maxOutputTokens <= p.maxOutputTokens
    ensures PlanFor(w, t, p, q) == Refused(InvalidRequest)
  {
    hide RequirementValid, LegacyContract, SelectMode, CanBuild;
  }

  /** Which contract a result is held against: the caller's, unless a legacy format brings its own schema. */
  lemma PlannedContract(w: StructuredJson.World, t: Tables, p: Profile, q: Request)
    requires PlanFor(w, t, p, q).Ready?
    ensures var contract := PlanFor(w, t, p, q).plan.contract;
      && (!FormatIs(q, "json_schema") ==> contract == q.outputContract)
      && (FormatIs(q, "json_schema") ==>
            var legacy := Get(q.responseFormat.value, "json_schema");
            && (legacy.None? || !legacy.value.Obj? ==> contract == q.outputContract)
            && (legacy.Some? && legacy.value.Obj? ==>
                  (forall fields :: Get(legacy.value, "schema") != Some(Obj(fields))) ==> contract == legacy)
            && (forall fields :: legacy.Some? && Get(legacy.value, "schema") == Some(Obj(fields)) ==>
                  contract.Some? && Get(contract.value, "json_schema") == Some(Obj(fields))))
  {
    hide RequirementValid, SelectMode, CanBuild, LegacyContract;
    assert |"json_object"| == |"json_schema"| && "json_object"[5] != "json_schema"[5];
    if FormatIs(q, "json_schema") {
      LegacyIs(q.outputContract, Get(q.responseFormat.value, "json_schema"));
    }
  }

  lemma LegacyIs(given: Option<Json>, legacy: Option<Json>)
    ensures var contract := LegacyContract(given, legacy);
      && (legacy.None? || !legacy.value.Obj? ==> contract == given)
      && (legacy.Some? && legacy.value.Obj? && (forall fields :: Get(legacy.value, "schema") != Some(Obj(fields))) ==>
            contract == legacy)
      && (forall fields :: legacy.Some? && Get(legacy.value, "schema") == Some(Obj(fields)) ==>
            contract.Some? && Get(contract.value, "json_schema") == Some(Obj(fields)))
  {
    if legacy.Some? && legacy.value.Obj? {
      var contract := LegacyContract(given, legacy).value;
      var schema := Get(legacy.value, "schema");
      if schema.Some? && schema.value.Obj? {
        assert |"contract_name"| != |"json_schema"|;
        assert contract.fields[1..][0] == Field("json_schema", schema.value);
        assert Get(contract, "json_schema") == Lookup(contract.fields[1..], "json_schema");
      }
    }
  }

  /** The schema of this contract or requirement is within the strict profile and is what its digest says. */
  ghost predicate Pinned(w: StructuredJson.World, holder: Json, key: string, schema: Json) {
    && Get(holder, key) == Some(schema)
    && ProfileAccepts(w.host, schema)
    && forall digest :: Get(holder, "schema_digest") == Some(Str(digest)) && digest != "" ==> digest == w.digest(schema)
  }

  /** A strict request has a contract whose schema is accepted, and a requirement that is about that schema. */
  lemma StrictIsValidated(w: StructuredJson.World, t: Tables, p: Profile, q: Request)
    requires PlanFor(w, t, p, q).Ready? && PlanFor(w, t, p, q).plan.strict
    ensures var contract := PlanFor(w, t, p, q).plan.contract;
      contract.Some? && exists schema ::
        && Pinned(w, contract.value, "json_schema", schema)
        && (q.requirement.Some? ==>
              var r := q.requirement.value;
              && Get(r, "mode") == Some(Str("strict_json_schema")) && Get(r, "strict") == Some(Bool(true))
              && Get(r, "schema_profile_version") == Some(Str("ledgermind-strict-schema"))
              && Get(r, "schema_digest") == Some(Str(w.digest(schema)))
              && exists required :: Pinned(w, r, "schema", required) && w.digest(required) == w.digest(schema))
  {
    hide LoadCapabilities, LegacyContract, ProfileAccepts;
    PlanFacts(w, t, p, q);
    var plan := PlanFor(w, t, p, q).plan;
    assert RequirementValid(w, q.requirement, plan.contract);
    var schema := Get(plan.contract.value, "json_schema").value;
    assert Pinned(w, plan.contract.value, "json_schema", schema);
    if q.requirement.Some? {
      assert Pinned(w, q.requirement.value, "schema", Get(q.requirement.value, "schema").value);
    }
  }

  // ---------------------------------------------------------------- the gate

  /** The gate is open exactly for a passed observation of strict transport that is not of another identity. */
  lemma GateIff(t: Tables, p: Profile, plan: Plan)
    requires plan.requested == Some(Strict)
    ensures GateOpen(t, p, plan) <==>
            && p.id in t.capabilities
            && var c := t.capabilities[p.id];
            && (c.probeStatus == Passed || c.probeResult == Passed)
            && c.structuredJsonSchema && c.nativeStrictness
            && (c.fingerprint == NoFingerprint || c.fingerprint == FingerprintOf(p, Some(Strict)))
  {
  }

  // ---------------------------------------------------------------- the fallback and the result

  /** A provider error of its own, or an answer that is too large, undecodable or no object. */
  ghost predicate Unusable(w: StructuredJson.World, a: StructuredJson.Answer) {
    match a
    case ResponseError => true
    case OtherError => false
    case Returned(bytes, content) => bytes > w.maxOutputBytes || content.None? || !content.value.Obj?
  }

  /** The one fallback, exactly when it is sent: after such an answer, and only for a mode nobody asked for. */
  lemma FallbackIff(w: StructuredJson.World, p: Profile, q: Request, plan: Plan)
    ensures FallsBack(w, p, q, plan) <==>
            && Unusable(w, w.answers(0))
            && q.responseFormat.None? && p.preference == Auto && plan.requested in {None, Some(Auto)}
            && exists next :: SentNext(w, q, plan, next)
    ensures forall next :: FallsBack(w, p, q, plan) && SentNext(w, q, plan, next) ==>
              PlannedExecutions(w, p, q, plan) == [(plan.selected, w.answers(0)), (next, w.answers(1))]
  {
    hide CanBuild;
    var fallback := FallbackMode(p, plan.requested, q.responseFormat, plan.selected);
    if FallsBack(w, p, q, plan) {
      assert SentNext(w, q, plan, fallback.value);
    }
  }

  /** The request in the next weaker mode can be built and is within the input budget. */
  ghost predicate SentNext(w: StructuredJson.World, q: Request, plan: Plan, next: Mode) {
    && (plan.selected, next) in {(JsonSchema, JsonObject), (ToolCall, JsonObject), (JsonObject, PromptOnly)}
    && CanBuild(w, q, plan.contract, next) && w.fits(next)
  }

  /** An answer becomes a result exactly when it is a JSON object within its size and the checker returns. */
  lemma ParsesIff(w: StructuredJson.World, contract: Option<Json>, answer: StructuredJson.Answer)
    ensures Parses(w, contract, answer) <==>
            && answer.Returned? && answer.bytes <= w.maxOutputBytes
            && exists fields :: answer.content == Some(Obj(fields))
                                && forall schema :: contract.Some? && Get(contract.value, "json_schema") == Some(schema)
                                     ==> Report(schema, w.stackDepth, Obj(fields), schema, [], Some(16)).Some?
  {
    hide Report;
    if Parses(w, contract, answer) {
      var data := answer.content.value;
      assert answer.content == Some(Obj(data.fields));
    }
  }

  /** A result is the object that was answered, and its issues are faults of it, below sixteen all of them. */
  lemma ResultIs(
    w: StructuredJson.World, contract: Option<Json>, answer: StructuredJson.Answer, o: Outcome, schema: Json)
    requires o.Ok? && Reported(w, contract, answer, o)
    requires contract.Some? && Get(contract.value, "json_schema") == Some(schema)
    ensures answer.Returned? && answer.bytes <= w.maxOutputBytes && answer.content == Some(o.data) && o.data.Obj?
    ensures forall issue :: issue in o.issues ==> Faulty(schema, o.data, schema, [], issue)
    ensures |o.issues| < 16 ==> forall issue :: Faulty(schema, o.data, schema, [], issue) ==> issue in o.issues
  {
    hide Report, Faulty;
    forall issue
      ensures issue in o.issues ==> Faulty(schema, o.data, schema, [], issue)
      ensures |o.issues| < 16 && Faulty(schema, o.data, schema, [], issue) ==> issue in o.issues
    {
      ReportIsFaults(schema, w.stackDepth, o.data, schema, [], Some(ISSUE_LIMIT), issue);
    }
  }
}
