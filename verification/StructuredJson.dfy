/** The control flow of `generate_json`: mode selection, one bounded fallback, and the strict gate. */
module StructuredJson {
  import opened Text
  import opened JsonValues
  import opened SchemaMeaning
  import opened SchemaChecker
  import opened SchemaTheory
  import opened SchemaFaults
  import opened StrictProfile
  import opened Profiles
  import opened ProfileStore

  const STRICT_SCHEMA_PROFILE := "ledgermind-strict-schema"
  const ISSUE_LIMIT: nat := 16

  datatype Error =
    | OutputBudgetExceeded | InvalidRequest | InputBudgetExceeded | SecretMissing
    | CapabilityUnverified | ConfigurationFailed | ProviderFailed | ResponseInvalid | SchemaViolated
    | RecursionExhausted  // the checker ran out of stack on a cyclic or very deep schema

  /** The caller's arguments; contracts, requirements and response formats are JSON objects. */
  datatype Request = Request(
    hasMessages: bool,
    maxOutputTokens: nat,
    responseFormat: Option<Json>,
    outputContract: Option<Json>,
    requirement: Option<Json>,
    mode: Option<Mode>,
    structuredOutputMode: Option<Mode>)

  datatype Answer =
    | Returned(bytes: nat, content: Option<Json>)  // None: not decodable as JSON
    | ResponseError                                 // ProviderResponseError
    | OtherError

  /**
   Everything outside this component: schema helpers, the canonical digest, whether a request in a
   mode can be built and fits the input budget, the secret, the factory, the stack left for the
   checker, and the provider's answers with their normalized error codes.
   */
  datatype World = World(
    host: Host,
    digest: Json -> string,
    builds: Mode -> bool,
    fits: Mode -> bool,
    secretPresent: bool,
    factoryWorks: bool,
    maxOutputBytes: nat,
    stackDepth: nat,
    errorCode: Answer -> string,
    answers: nat -> Answer)

  // ---------------------------------------------------------------- the strict requirement

  predicate ContractIsStrict(w: World, contract: Json) {
    && Get(contract, "json_schema").Some?
    && var schema := Get(contract, "json_schema").value;
    && ProfileAccepts(w.host, schema)
    && match Get(contract, "schema_digest")
       case Some(Str(digest)) => digest == "" || digest == w.digest(schema)
       case _ => true
  }

  /** `validate_strict_requirement` succeeds. */
  predicate RequirementValid(w: World, requirement: Option<Json>, contract: Option<Json>) {
    match requirement
    case None => contract.Some? && ContractIsStrict(w, contract.value)
    case Some(r) =>
      && Get(r, "mode") == Some(Str("strict_json_schema"))
      && Get(r, "schema_profile_version") == Some(Str(STRICT_SCHEMA_PROFILE))
      && Get(r, "strict") == Some(Bool(true))
      && Get(r, "schema").Some?
      && ProfileAccepts(w.host, Get(r, "schema").value)
      && Get(r, "schema_digest") == Some(Str(w.digest(Get(r, "schema").value)))
      && (contract.Some? ==>
          && ContractIsStrict(w, contract.value)
          && w.digest(Get(contract.value, "json_schema").value) == w.digest(Get(r, "schema").value))
  }

  // ---------------------------------------------------------------- planning

  /** `_normalize_contract_and_mode`: a legacy response format overrides contract and mode. */
  function Normalize(q: Request): Option<(Option<Json>, Option<Mode>)> {
    if q.mode.Some? && q.structuredOutputMode.Some? && q.mode != q.structuredOutputMode then None
    else
      var requested := if q.mode.Some? then q.mode else q.structuredOutputMode;
      match q.responseFormat
      case None => Some((q.outputContract, requested))
      case Some(format) =>
        if Get(format, "type") == Some(Str("json_object")) then Some((q.outputContract, Some(JsonObject)))
        else if Get(format, "type") == Some(Str("json_schema")) then
          Some((LegacyContract(q.outputContract, Get(format, "json_schema")), Some(JsonSchema)))
        else None
  }

  function LegacyContract(given: Option<Json>, legacy: Option<Json>): Option<Json> {
    match legacy
    case Some(Obj(fields)) =>
      (match Lookup(fields, "schema")
       case Some(Obj(schema)) =>
         var name := Lookup(fields, "name");
         Some(Obj([Field("contract_name", if name.Some? then name.value else Str("structured_result")),
                   Field("json_schema", Obj(schema))]))
       case _ => Some(Obj(fields)))
    case _ => given
  }

  /** `_load_capabilities` over the persisted store. */
  function LoadCapabilities(t: Tables, p: Profile, override: Option<Mode>): Option<Capabilities> {
    var current := SelectedForProfile(t, p, true);
    if current.Some? then current
    else
      var stored := Selected(t, p.id, None, false);
      if stored.Some? && (stored.value.fingerprint == NoFingerprint
                          || stored.value.IsFresh(FingerprintOf(p, override)))
      then stored
      else None
  }

  const MODE_ORDER: seq<Mode> := [Strict, JsonSchema, ToolCall, JsonObject, PromptOnly]

  function FirstSupported(c: Capabilities, modes: seq<Mode>): Option<Mode> {
    if |modes| == 0 then None
    else if c.Supports(modes[0]) then Some(modes[0])
    else FirstSupported(c, modes[1..])
  }

  /** `_select_mode`; None is the refusal of a passed probe that recorded no mode. */
  function SelectMode(t: Tables, p: Profile, requested: Option<Mode>, responseFormat: Option<Json>): Option<Mode> {
    if responseFormat.Some? && Get(responseFormat.value, "type") == Some(Str("json_object")) then Some(JsonObject)
    else
      var candidate := if requested.Some? then requested.value else p.preference;
      if candidate != Auto then Some(candidate)
      else match LoadCapabilities(t, p, None)
        case None => Some(JsonObject)
        case Some(c) =>
          var supported := FirstSupported(c, MODE_ORDER);
          if supported.Some? then supported
          else if c.probeStatus == Passed then None
          else Some(JsonObject)
  }

  /** `_automatic_fallback_mode`: only for a choice Local made itself. */
  function FallbackMode(
    p: Profile, requested: Option<Mode>, responseFormat: Option<Json>, selected: Mode): Option<Mode> {
    if responseFormat.Some? || (requested.Some? && requested.value != Auto) || p.preference != Auto then None
    else match selected
      case JsonSchema => Some(JsonObject)
      case ToolCall => Some(JsonObject)
      case JsonObject => Some(PromptOnly)
      case _ => None
  }

  /** `_build_request` succeeds. */
  predicate CanBuild(w: World, q: Request, contract: Option<Json>, mode: Mode) {
    && q.hasMessages
    && ((mode == Strict || mode == JsonSchema) ==> SchemaOf(contract).Some? && SchemaOf(contract).value.Obj?)
    && w.builds(mode)
  }

  function SchemaOf(contract: Option<Json>): Option<Json> {
    if contract.Some? then Get(contract.value, "json_schema") else None
  }

  datatype Plan = Plan(contract: Option<Json>, requested: Option<Mode>, strict: bool, selected: Mode)

  datatype Planned = Ready(plan: Plan) | Refused(error: Error)

  /** Everything decided before the first budget check. */
  function PlanFor(w: World, t: Tables, p: Profile, q: Request): Planned {
    if q.maxOutputTokens > p.maxOutputTokens then Refused(OutputBudgetExceeded)
    else match Normalize(q)
      case None => Refused(InvalidRequest)
      case Some((contract, requested)) =>
        var strict := q.requirement.Some? || requested == Some(Strict);
        if strict && requested.Some? && requested.value != Auto
              && requested.value != Strict then Refused(InvalidRequest)
        else if strict && !RequirementValid(w, q.requirement, contract) then Refused(InvalidRequest)
        else
          var effective := if strict then Some(Strict) else requested;
          match SelectMode(t, p, effective, q.responseFormat)
          case None => Refused(InvalidRequest)
          case Some(selected) =>
            if CanBuild(w, q, contract, selected) then Ready(Plan(contract, effective, strict, selected))
            else Refused(InvalidRequest)
  }

  /** The strict gate: a passed observation of this identity in strict mode that supports strict output. */
  predicate GateOpen(t: Tables, p: Profile, plan: Plan) {
    var loaded := LoadCapabilities(t, p, plan.requested);
    loaded.Some? && loaded.value.IsFresh(FingerprintOf(p, plan.requested)) && loaded.value.Supports(Strict)
  }

  // ---------------------------------------------------------------- execution

  datatype Event = BudgetPassed(mode: Mode) | Executed(mode: Mode, answer: Answer) | Closed

  datatype Outcome = Ok(data: Json, issues: seq<Issue>, mode: Mode) | Err(error: Error)

  /** The answer is a decodable JSON object within the size limit. */
  predicate Usable(w: World, a: Answer) {
    a.Returned? && a.bytes <= w.maxOutputBytes && a.content.Some? && a.content.value.Obj?
  }

  /** The failures that permit the bounded fallback. */
  predicate Retryable(w: World, a: Answer) {
    a.ResponseError? || (a.Returned? && !Usable(w, a))
  }

  function Executions(trace: seq<Event>): seq<(Mode, Answer)> {
    if |trace| == 0 then []
    else
      var last := trace[|trace| - 1];
      Executions(trace[..|trace| - 1]) + if last.Executed? then [(last.mode, last.answer)] else []
  }

  /** Every execution comes after a budget check that its mode's request passed. */
  ghost predicate Budgeted(w: World, trace: seq<Event>) {
    && (forall i :: 0 <= i < |trace| && trace[i].BudgetPassed? ==> w.fits(trace[i].mode))
    && forall i :: 0 <= i < |trace| && trace[i].Executed? ==>
         exists j :: 0 <= j < i && trace[j] == BudgetPassed(trace[i].mode)
  }

  /** The checker's report on decoded data; None where it exhausts the stack. */
  ghost function Checked(w: World, contract: Option<Json>, data: Json): Option<seq<Issue>> {
    match SchemaOf(contract)
    case None => Some([])
    case Some(schema) => Report(schema, w.stackDepth, data, schema, [], Some(ISSUE_LIMIT))
  }

  /** A usable answer on which the checker returns. */
  ghost predicate Parses(w: World, contract: Option<Json>, answer: Answer) {
    Usable(w, answer) && Checked(w, contract, answer.content.value).Some?
  }

  /** The data is what the answer carried and the report is the checker's, against the contract's schema. */
  ghost predicate Reported(w: World, contract: Option<Json>, answer: Answer, o: Outcome)
    requires o.Ok?
  {
    Usable(w, answer) && answer.content == Some(o.data) && Checked(w, contract, o.data) == Some(o.issues)
  }

  ghost predicate ConformsToContract(contract: Option<Json>, data: Json) {
    contract.Some? && exists schema ::
      Get(contract.value, "json_schema") == Some(schema) && Conforms(schema, data, schema)
  }

  /** `_to_result`. */
  method ToResult(w: World, contract: Option<Json>, mode: Mode, answer: Answer) returns (o: Outcome)
    ensures o.Ok? <==> Parses(w, contract, answer)
    ensures o.Ok? ==> o.mode == mode && Reported(w, contract, answer, o)
    ensures o.Err? ==> o.error == AnswerError(w, answer)
  {
    hide Report, Conforms;
    match answer {
      case Returned(bytes, content) =>
        if bytes > w.maxOutputBytes || content.None? || !content.value.Obj? {
          return Err(ResponseInvalid);
        }
        var schema := SchemaOf(contract);
        var issues := [];
        if schema.Some? {
          var report := AdvisorySchemaIssues(content.value, schema.value, w.stackDepth, ISSUE_LIMIT);
          if report.None? {
            return Err(RecursionExhausted);
          }
          issues := report.value;
        }
        o := Ok(content.value, issues, mode);
      case ResponseError => o := Err(ResponseInvalid);
      case OtherError => o := Err(ProviderFailed);
    }
  }

  /** Which error a request that is never executed ends with, if any. */
  function Blocked(w: World, t: Tables, p: Profile, q: Request): Option<Error> {
    match PlanFor(w, t, p, q)
    case Refused(error) => Some(error)
    case Ready(plan) =>
      if !w.fits(plan.selected) then Some(InputBudgetExceeded)
      else if !w.secretPresent then Some(SecretMissing)
      else if plan.strict && !GateOpen(t, p, plan) then Some(CapabilityUnverified)
      else if !w.factoryWorks then Some(ConfigurationFailed)
      else None
  }

  /** Whether the single fallback request is sent. */
  predicate FallsBack(w: World, p: Profile, q: Request, plan: Plan) {
    && Retryable(w, w.answers(0))
    && var fallback := FallbackMode(p, plan.requested, q.responseFormat, plan.selected);
    && fallback.Some?
    && CanBuild(w, q, plan.contract, fallback.value)
    && w.fits(fallback.value)
  }

  /** What a run leaves behind: the executions it made, whether the fallback was one of them, and the store. */
  function PlannedExecutions(w: World, p: Profile, q: Request, plan: Plan): seq<(Mode, Answer)> {
    [(plan.selected, w.answers(0))]
    + if FallsBack(w, p, q, plan)
      then [(FallbackMode(p, plan.requested, q.responseFormat, plan.selected).value, w.answers(1))]
      else []
  }

  function LastOf(executions: seq<(Mode, Answer)>): (Mode, Answer)
    requires executions != []
  {
    executions[|executions| - 1]
  }

  /** The error `_to_result` raises for an answer it turns into no result. */
  function AnswerError(w: World, answer: Answer): Error {
    if answer.OtherError? then ProviderFailed
    else if Usable(w, answer) then RecursionExhausted
    else ResponseInvalid
  }

  /** The error executions without a result end with: a fallback that cannot be sent has its own. */
  function FinalError(w: World, p: Profile, q: Request, plan: Plan): Error {
    var fallback := FallbackMode(p, plan.requested, q.responseFormat, plan.selected);
    if !Retryable(w, w.answers(0)) || fallback.None? then AnswerError(w, w.answers(0))
    else if !CanBuild(w, q, plan.contract, fallback.value) then InvalidRequest
    else if !w.fits(fallback.value) then InputBudgetExceeded
    else AnswerError(w, w.answers(1))
  }

  /** The try block of `generate_json`: the first execution and its one bounded fallback. */
  method ExecuteWithFallback(
    w: World, store: InferenceProfileStore, p: Profile, q: Request, plan: Plan, before: seq<Event>)
    returns (o: Outcome, trace: seq<Event>)
    requires before == [BudgetPassed(plan.selected)] && w.fits(plan.selected)
    modifies store
    ensures Budgeted(w, trace) && |trace| > 0 && trace[|trace| - 1] == Closed
    ensures Executions(trace) == PlannedExecutions(w, p, q, plan)
    ensures o.Ok? ==>
              var last := LastOf(PlannedExecutions(w, p, q, plan));
              o.mode == last.0 && Reported(w, plan.contract, last.1, o)
    ensures o.Err? ==>
              && o.error == FinalError(w, p, q, plan)
              && !Parses(w, plan.contract, LastOf(PlannedExecutions(w, p, q, plan)).1)
    ensures store.View() ==
              if FallsBack(w, p, q, plan) && o.Ok? then
                AfterFallback(old(store.View()), p.id, plan.selected,
                              FallbackMode(p, plan.requested, q.responseFormat, plan.selected).value,
                              w.errorCode(w.answers(0)))
              else old(store.View())
  {
    hide Executions, Budgeted, CanBuild, Reported, Parses, FallbackMode, AfterFallback;
    trace := before;
    NothingYet(w, plan.selected);
    ExecutionStep(w, trace, plan.selected, w.answers(0));
    trace := trace + [Executed(plan.selected, w.answers(0))];
    o := ToResult(w, plan.contract, plan.selected, w.answers(0));
    UnusableDoesNotParse(w, plan.contract, w.answers(0));
    if o.Err? && Retryable(w, w.answers(0)) {
      var fallback := FallbackMode(p, plan.requested, q.responseFormat, plan.selected);
      if fallback.Some? {
        if !CanBuild(w, q, plan.contract, fallback.value) {
          CloseStep(w, trace);
          return Err(InvalidRequest), trace + [Closed];
        }
        if !w.fits(fallback.value) {
          CloseStep(w, trace);
          return Err(InputBudgetExceeded), trace + [Closed];
        }
        BudgetStep(w, trace, fallback.value);
        trace := trace + [BudgetPassed(fallback.value)];
        ExecutionStep(w, trace, fallback.value, w.answers(1));
        trace := trace + [Executed(fallback.value, w.answers(1))];
        o := ToResult(w, plan.contract, fallback.value, w.answers(1));
        if o.Ok? {
          var _ := store.RecordCapabilityFallback(p.id, plan.selected, fallback.value, w.errorCode(w.answers(0)));
        }
      }
    }
    CloseStep(w, trace);
    trace := trace + [Closed];
  }

  method GenerateJson(w: World, store: InferenceProfileStore, p: Profile, q: Request)
    returns (o: Outcome, trace: seq<Event>)
    modifies store
    // nothing is executed exactly when something blocks the request
    ensures var blocked := Blocked(w, old(store.View()), p, q);
            (blocked.Some? ==> o == Err(blocked.value)) && (Executions(trace) == [] <==> blocked.Some?)
    // at most two executions, in the selected mode and then in its fallback, each budget-checked first
    ensures Budgeted(w, trace)
    ensures Executions(trace) != [] ==>
              Executions(trace) == PlannedExecutions(w, p, q, PlanFor(w, old(store.View()), p, q).plan)
    // a strict request runs once, in strict mode, behind an open gate
    ensures Executions(trace) != [] && PlanFor(w, old(store.View()), p, q).plan.strict ==>
              && Executions(trace) == [(Strict, w.answers(0))]
              && GateOpen(old(store.View()), p, PlanFor(w, old(store.View()), p, q).plan)
    // a result is what the last execution answered; a strict one conforms to the contract's schema
    ensures o.Ok? ==>
              var plan := PlanFor(w, old(store.View()), p, q).plan;
              && Executions(trace) != []
              && o.mode == LastOf(Executions(trace)).0
              && Reported(w, plan.contract, LastOf(Executions(trace)).1, o)
              && (plan.strict ==> ConformsToContract(plan.contract, o.data))
    // a last answer that parses is returned unless it is strict and does not conform; other errors are its own
    ensures Executions(trace) != [] ==>
              var plan := PlanFor(w, old(store.View()), p, q).plan;
              var last := LastOf(Executions(trace)).1;
              if !Parses(w, plan.contract, last) then o == Err(FinalError(w, p, q, plan))
              else
                var refused := plan.strict && !ConformsToContract(plan.contract, last.content.value);
                if refused then o == Err(SchemaViolated) else o.Ok?
    // the store changes only to record a fallback that succeeded
    ensures store.View() ==
              if |Executions(trace)| == 2 && o.Ok? then
                AfterFallback(old(store.View()), p.id, Executions(trace)[0].0, Executions(trace)[1].0,
                              w.errorCode(w.answers(0)))
              else old(store.View())
    // an executed request leaves the provider closed
    ensures Executions(trace) != [] ==> trace[|trace| - 1] == Closed
  {
    hide PlanFor, GateOpen, Reported, AfterFallback, Executions, Budgeted, FallsBack, Parses, ConformsToContract;
    trace := [];
    var t := store.View();
    NoExecution(w);
    var planned := PlanFor(w, t, p, q);
    if planned.Refused? {
      return Err(planned.error), trace;
    }
    var plan := planned.plan;
    if !w.fits(plan.selected) {
      return Err(InputBudgetExceeded), trace;
    }
    trace := [BudgetPassed(plan.selected)];
    NothingYet(w, plan.selected);
    if !w.secretPresent {
      return Err(SecretMissing), trace;
    }
    if plan.strict && !GateOpen(t, p, plan) {
      return Err(CapabilityUnverified), trace;
    }
    if !w.factoryWorks {
      return Err(ConfigurationFailed), trace;
    }
    PlanFacts(w, t, p, q);
    StrictNeverFallsBack(w, p, q, plan);
    ReportedParses(w, plan.contract);
    o, trace := ExecuteWithFallback(w, store, p, q, plan, trace);
    if plan.strict && o.Ok? {
      CleanReportConforms(w, plan.contract, LastOf(PlannedExecutions(w, p, q, plan)).1, o);
      if o.issues != [] {
        return Err(SchemaViolated), trace;
      }
    }
  }

  lemma PlanFacts(w: World, t: Tables, p: Profile, q: Request)
    requires PlanFor(w, t, p, q).Ready?
    ensures Normalize(q).Some? && Normalize(q).value.0 == PlanFor(w, t, p, q).plan.contract
    ensures PlanFor(w, t, p, q).plan.strict ==>
              && PlanFor(w, t, p, q).plan.selected == Strict
              && PlanFor(w, t, p, q).plan.requested == Some(Strict)
              && SchemaOf(PlanFor(w, t, p, q).plan.contract).Some?
  {
    hide RequirementValid, LoadCapabilities, LegacyContract;
  }

  lemma StrictNeverFallsBack(w: World, p: Profile, q: Request, plan: Plan)
    requires plan.strict ==> plan.requested == Some(Strict)
    ensures plan.strict ==> !FallsBack(w, p, q, plan)
  {
  }

  /** A reported result is one of an answer that parses, and carries that answer's data. */
  lemma ReportedParses(w: World, contract: Option<Json>)
    ensures forall answer, o: Outcome :: o.Ok? && Reported(w, contract, answer, o) ==>
              Parses(w, contract, answer) && answer.content.value == o.data
  {
  }

  /**
   An execution in strict mode is behind the gate exactly when the request asked for it.  A profile whose
   own preference is strict is executed in strict mode without the gate and without a conformance check.
   */
  lemma PreferredStrictIsNotGated(w: World, t: Tables, p: Profile, q: Request)
    requires p.preference == Strict && q.mode.None? && q.structuredOutputMode.None? && q.requirement.None?
    requires q.responseFormat.None? && q.maxOutputTokens <= p.maxOutputTokens
    requires CanBuild(w, q, q.outputContract, Strict)
    ensures PlanFor(w, t, p, q) == Ready(Plan(q.outputContract, None, false, Strict))
    ensures w.fits(Strict) && w.secretPresent && w.factoryWorks ==> Blocked(w, t, p, q).None?
  {
  }

  /** When a planned request is strict: it carries a requirement or names the mode, in either argument. */
  lemma StrictIffRequested(w: World, t: Tables, p: Profile, q: Request)
    requires PlanFor(w, t, p, q).Ready?
    ensures PlanFor(w, t, p, q).plan.strict <==>
            q.requirement.Some? || (q.responseFormat.None? && Some(Strict) in {q.mode, q.structuredOutputMode})
  {
    hide RequirementValid, SelectMode, LegacyContract;
  }

  lemma UnusableDoesNotParse(w: World, contract: Option<Json>, answer: Answer)
    ensures !Usable(w, answer) ==> !Parses(w, contract, answer)
  {
  }

  lemma NoExecution(w: World)
    ensures Executions([]) == [] && Budgeted(w, [])
  {
  }

  lemma NothingYet(w: World, m: Mode)
    requires w.fits(m)
    ensures Executions([BudgetPassed(m)]) == [] && Budgeted(w, [BudgetPassed(m)])
  {
    assert [BudgetPassed(m)][..0] == [];
  }

  lemma AppendEvent(w: World, trace: seq<Event>, e: Event)
    requires Budgeted(w, trace) && (e.BudgetPassed? ==> w.fits(e.mode))
    requires e.Executed? ==> |trace| > 0 && trace[|trace| - 1] == BudgetPassed(e.mode)
    ensures Executions(trace + [e]) == Executions(trace) + if e.Executed? then [(e.mode, e.answer)] else []
    ensures Budgeted(w, trace + [e])
  {
    var longer := trace + [e];
    assert longer[..|longer| - 1] == trace;
    forall i | 0 <= i < |longer| && longer[i].Executed?
      ensures exists j :: 0 <= j < i && longer[j] == BudgetPassed(longer[i].mode)
    {
      if i < |trace| {
        var j :| 0 <= j < i && trace[j] == BudgetPassed(trace[i].mode);
        assert longer[j] == BudgetPassed(longer[i].mode);
      } else {
        assert longer[|trace| - 1] == BudgetPassed(longer[i].mode);
      }
    }
  }

  lemma ExecutionStep(w: World, trace: seq<Event>, m: Mode, a: Answer)
    requires Budgeted(w, trace) && |trace| > 0 && trace[|trace| - 1] == BudgetPassed(m)
    ensures Executions(trace + [Executed(m, a)]) == Executions(trace) + [(m, a)]
    ensures Budgeted(w, trace + [Executed(m, a)])
  {
    hide Executions, Budgeted;
    AppendEvent(w, trace, Executed(m, a));
  }

  lemma BudgetStep(w: World, trace: seq<Event>, m: Mode)
    requires Budgeted(w, trace) && w.fits(m)
    ensures Executions(trace + [BudgetPassed(m)]) == Executions(trace) && Budgeted(w, trace + [BudgetPassed(m)])
  {
    hide Executions, Budgeted;
    AppendEvent(w, trace, BudgetPassed(m));
    assert Executions(trace) + [] == Executions(trace);
  }

  lemma CloseStep(w: World, trace: seq<Event>)
    requires Budgeted(w, trace)
    ensures Executions(trace + [Closed]) == Executions(trace) && Budgeted(w, trace + [Closed])
  {
    hide Executions, Budgeted;
    AppendEvent(w, trace, Closed);
    assert Executions(trace) + [] == Executions(trace);
  }

  lemma CleanReportConforms(w: World, contract: Option<Json>, answer: Answer, o: Outcome)
    requires o.Ok? && SchemaOf(contract).Some? && Reported(w, contract, answer, o)
    ensures o.issues == [] <==> ConformsToContract(contract, o.data)
  {
    hide Report, Conforms;
    var schema := SchemaOf(contract).value;
    CleanIffConforms(schema, w.stackDepth, o.data, schema, [], Some(ISSUE_LIMIT));
  }
}
