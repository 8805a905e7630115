/** Execution of generic Core tasks, one by one and in batches (`core_task_executor.py`). */
module TaskExecutor {
  import opened Text
  import opened EmbeddingKeys
  import opened Embedding
  import opened EmbeddingBatches
  import opened EmbeddingService

  datatype Spec = Spec(
    texts: seq<string>,
    purpose: string,
    dimensions: Option<int>,
    profileFingerprint: Option<string>,
    configFingerprint: Option<string>,
    privacyClass: string,
    cacheNamespace: string,
    cacheKeys: Option<seq<string>>,
    deadline: Option<string>,
    role: Option<Role>,
    renderer: Option<string>)

  datatype Task = Task(id: string, kind: string, space: string, slot: string, spec: Option<Spec>)

  datatype Status = Completed | Failed | UnknownKind | WasCancelled | TimedOut

  datatype TaskResult = TaskResult(
    taskId: string, kind: string, status: Status, code: string, batch: Option<Batch>,
    profileId: Option<string>, inputBytes: nat, outputBytes: nat)

  datatype Resolution = Resolved(profile: Profile) | Unresolved(code: string, profileId: Option<string>)

  /** The executor's surroundings: profile resolver, generation of JSON, UTF-8 lengths, backend. */
  datatype Environment = Environment(
    resolve: (string, string) -> Resolution,
    generate: Task -> TaskResult,
    utf8: string -> nat,
    backend: Vectorizer)

  /**
   * What `_run_bounded` sees: the work ends in time (possibly noticing a cancellation itself), is
   * never started, or is given up while its thread may still run to the end.
   */
  datatype Bound = InTime(cancelled: bool) | NotStarted | GivenUp(timedOut: bool, ranAnyway: bool)

  datatype Run<+T> = Done(value: T) | Stopped(status: Status, code: string)

  function Code(e: EmbedError): string {
    match e
    case Cancelled => "cancelled"
    case RequestError => "embedding_request_error"
    case TextTooLarge => "embedding_text_too_large"
    case BatchTooLarge => "embedding_batch_too_large"
    case ModelError => "embedding_model_error"
    case NonFiniteValue => "embedding_non_finite"
    case DimensionMismatch => "embedding_dimension_mismatch"
    case BackendRaised(code) => code
    case IdentityInvalid => "execution_failed"
    case ResultInvalid => "execution_failed"
  }

  function Bounded<T>(bound: Bound, outcome: Outcome<T>): Run<T> {
    match bound
    case NotStarted => Stopped(WasCancelled, "cancelled")
    case GivenUp(timedOut, _) => if timedOut then Stopped(TimedOut, "timeout") else Stopped(WasCancelled, "cancelled")
    case InTime(_) =>
      match outcome
      case Ok(value) => Done(value)
      case Err(e) => Stopped(if e == Cancelled then WasCancelled else Failed, Code(e))
  }

  function InputBytes(env: Environment, texts: seq<string>): nat {
    if texts == [] then 0 else InputBytes(env, texts[..|texts| - 1]) + env.utf8(texts[|texts| - 1])
  }

  function FailedResult(task: Task, status: Status, code: string, bytes: nat, profileId: Option<string>): TaskResult {
    TaskResult(task.id, task.kind, status, code, None, profileId, bytes, 0)
  }

  function RequestOf(spec: Spec, profile: Profile): Request {
    Request(spec.texts, Some(profile), spec.purpose, spec.dimensions, spec.cacheKeys,
            if spec.cacheNamespace != "" then spec.cacheNamespace else spec.privacyClass,
            spec.profileFingerprint, spec.configFingerprint, spec.privacyClass, spec.deadline, spec.role, spec.renderer)
  }

  /** The result for one task from its part of the batch: the requested dimension must be the one delivered. */
  function FromBatch(env: Environment, task: Task, spec: Spec, profile: Profile, batch: Batch): TaskResult {
    var bytes := InputBytes(env, spec.texts);
    if spec.dimensions.Some? && spec.dimensions.value != batch.dimensions then
      FailedResult(task, Failed, "embedding_dimension_mismatch", bytes, Some(profile.id))
    else
      TaskResult(task.id, task.kind, Completed, "", Some(batch), Some(profile.id), bytes,
            |batch.vectors| * batch.dimensions * 4)
  }

  /** The same for a task whose specification and profile are known. */
  function PartFor(env: Environment, task: Task, batch: Batch): TaskResult
    requires task.spec.Some? && ProfileFor(env, task).Resolved?
  {
    FromBatch(env, task, task.spec.value, ProfileFor(env, task).profile, batch)
  }

  predicate Generates(task: Task) {
    task.kind == "generate_json" || task.kind == "object_resolution"
  }

  function ProfileFor(env: Environment, task: Task): Resolution {
    env.resolve(task.space, task.slot)
  }

  function EmbedAlone(
    env: Environment, cfg: Config, task: Task, spec: Spec, profile: Profile, bound: Bound,
    world: Source -> Vector)
    : TaskResult
  {
    var outcome := Direct(cfg, [RequestOf(spec, profile)], env.backend, world, false, bound.InTime? && bound.cancelled);
    match Bounded(bound, outcome)
    case Stopped(status, code) => FailedResult(task, status, code, InputBytes(env, spec.texts), Some(profile.id))
    case Done(batches) => FromBatch(env, task, spec, profile, batches[0])
  }

  /** A task executed on its own, with every text encoded pointwise. */
  function ExecutedAlone(env: Environment, cfg: Config, task: Task, bound: Bound, world: Source -> Vector): TaskResult {
    if Generates(task) then env.generate(task)
    else if task.kind != "embed_texts" then FailedResult(task, UnknownKind, "unknown_task_kind", 0, None)
    else
      match task.spec
      case None => FailedResult(task, Failed, "invalid_request", 0, None)
      case Some(spec) =>
        match ProfileFor(env, task)
        case Unresolved(code, id) => FailedResult(task, Failed, code, InputBytes(env, spec.texts), id)
        case Resolved(profile) => EmbedAlone(env, cfg, task, spec, profile, bound, world)
  }

  // ---------------------------------------------------------------- assumptions

  /** Honest names for whatever request a task makes. */
  ghost predicate HonestTask(
    env: Environment, cfg: Config, task: Task, meaning: string -> Source, world: Source -> Vector) {
    task.spec.Some? && ProfileFor(env, task).Resolved? ==>
      Honest(cfg, [RequestOf(task.spec.value, ProfileFor(env, task).profile)], env.backend, meaning, world)
  }

  ghost predicate HonestTasks(
    env: Environment, cfg: Config, tasks: seq<Task>, meaning: string -> Source, world: Source -> Vector) {
    forall i :: 0 <= i < |tasks| ==> HonestTask(env, cfg, tasks[i], meaning, world)
  }

  /** A profile id stands for one profile. */
  ghost predicate OneProfilePerId(env: Environment, tasks: seq<Task>) {
    forall i, j :: 0 <= i < |tasks| && 0 <= j < |tasks| ==>
          SameProfile(ProfileFor(env, tasks[i]), ProfileFor(env, tasks[j]))
  }

  predicate SameProfile(a: Resolution, b: Resolution) {
    a.Resolved? && b.Resolved? && a.profile.id == b.profile.id ==> a.profile == b.profile
  }

  // ---------------------------------------------------------------- kinds of batches

  predicate AllEmbed(tasks: seq<Task>) {
    forall i :: 0 <= i < |tasks| ==> tasks[i].kind == "embed_texts"
  }

  predicate AllSpecified(tasks: seq<Task>) {
    forall i :: 0 <= i < |tasks| ==> tasks[i].spec.Some?
  }

  predicate AllResolved(env: Environment, tasks: seq<Task>) {
    forall i :: 0 <= i < |tasks| ==> ProfileFor(env, tasks[i]).Resolved?
  }

  /** The settings that must agree for two tasks to share a backend call. */
  predicate Agree(p: Profile, s: Spec, q: Profile, t: Spec) {
    && p.id == q.id && p.model == q.model && p.baseUrl == q.baseUrl && p.providerKind == q.providerKind
    && s.profileFingerprint == t.profileFingerprint && s.configFingerprint == t.configFingerprint
    && s.dimensions == t.dimensions && s.privacyClass == t.privacyClass && s.cacheNamespace == t.cacheNamespace
    && s.deadline == t.deadline && s.role == t.role && s.renderer == t.renderer
  }

  /** Task `i` agrees with the first. */
  predicate AgreeAt(env: Environment, tasks: seq<Task>, i: nat)
    requires i < |tasks| && AllSpecified(tasks) && AllResolved(env, tasks)
  {
    var p, first := ProfileFor(env, tasks[i]).profile, ProfileFor(env, tasks[0]).profile;
    Agree(p, tasks[i].spec.value, first, tasks[0].spec.value)
  }

  predicate AllAgree(env: Environment, tasks: seq<Task>)
    requires AllSpecified(tasks) && AllResolved(env, tasks)
  {
    forall i :: 0 <= i < |tasks| ==> AgreeAt(env, tasks, i)
  }

  function Requests(env: Environment, tasks: seq<Task>): seq<Request>
    requires AllSpecified(tasks) && AllResolved(env, tasks)
  {
    seq(|tasks|, i requires 0 <= i < |tasks| => RequestOf(tasks[i].spec.value, ProfileFor(env, tasks[i]).profile))
  }

  /** Agreeing tasks make uniform requests. */
  lemma AgreeingIsUniform(env: Environment, tasks: seq<Task>)
    requires tasks != [] && AllSpecified(tasks) && AllResolved(env, tasks)
    requires AllAgree(env, tasks) && OneProfilePerId(env, tasks)
    ensures Uniform(Requests(env, tasks))
  {
    var requests := Requests(env, tasks);
    forall i | 0 <= i < |requests| ensures MatchesFirst(requests[i], requests[0]) {
      assert SameProfile(ProfileFor(env, tasks[i]), ProfileFor(env, tasks[0]));
      assert AgreeAt(env, tasks, i);
    }
  }

  predicate AllFailWith(tasks: seq<Task>, results: seq<TaskResult>, status: Status, code: string)
    requires |results| == |tasks|
  {
    forall i :: 0 <= i < |tasks| ==> FailsWith(results[i], tasks[i], status, code)
  }

  predicate FailsWith(r: TaskResult, task: Task, status: Status, code: string) {
    r.taskId == task.id && r.kind == task.kind && r.status == status && r.code == code && r.batch.None?
  }

  function EachAlone(
    env: Environment, cfg: Config, tasks: seq<Task>, bounds: seq<Bound>, world: Source -> Vector): seq<TaskResult>
    requires |bounds| >= |tasks|
  {
    seq(|tasks|, i requires 0 <= i < |tasks| => ExecutedAlone(env, cfg, tasks[i], bounds[i], world))
  }

  /** What makes one backend call equal to one call per task. */
  ghost predicate MembersFit(env: Environment, cfg: Config, tasks: seq<Task>, world: Source -> Vector)
    requires AllSpecified(tasks) && AllResolved(env, tasks)
  {
    var requests := Requests(env, tasks);
    && |AllTexts(requests)| <= cfg.maxTexts
    && (forall i :: 0 <= i < |requests| ==> Alone(cfg, requests[i], env.backend, world).Ok?)
    && OneDimension(cfg, requests, env.backend, world)
  }

  /** With a fixed backend dimension it is enough that each task succeeds alone and the texts fit. */
  lemma FixedDimensionFits(env: Environment, cfg: Config, tasks: seq<Task>, world: Source -> Vector)
    requires AllSpecified(tasks) && AllResolved(env, tasks) && env.backend.dimension.Some?
    requires |AllTexts(Requests(env, tasks))| <= cfg.maxTexts
    requires forall i :: 0 <= i < |tasks| ==> Alone(cfg, Requests(env, tasks)[i], env.backend, world).Ok?
    ensures MembersFit(env, cfg, tasks, world)
  {
    hide Alone;
    KnownDimension(cfg, Requests(env, tasks), env.backend, world);
  }

  /** The one backend call of agreeing tasks, as its bound lets it end. */
  function SharedRun(env: Environment, cfg: Config, tasks: seq<Task>, bound: Bound, world: Source -> Vector)
    : Run<seq<Batch>>
    requires AllSpecified(tasks) && AllResolved(env, tasks)
  {
    var cancelled := bound.InTime? && bound.cancelled;
    Bounded(bound, Direct(cfg, Requests(env, tasks), env.backend, world, false, cancelled))
  }

  /** The handler for a failed batch pairs tasks with the profiles resolved so far, and raises when some are missing. */
  predicate LosesResults(env: Environment, tasks: seq<Task>) {
    && tasks != [] && AllEmbed(tasks) && AllSpecified(tasks)
    && ProfileFor(env, tasks[0]).Resolved? && !AllResolved(env, tasks)
  }

  /** A resolver that knows one slot only. */
  function OneSlot(backend: Vectorizer): Environment {
    Environment(
      (space: string, slot: string) =>
        if slot == "known" then Resolved(Profile("p", "m", "u", "k", 1)) else Unresolved("profile_missing", None),
      (task: Task) => FailedResult(task, Failed, "", 0, None),
      (text: string) => |text|,
      backend)
  }

  function EmbedTask(id: string, slot: string): Task {
    Task(id, "embed_texts", "", slot,
         Some(Spec(["a"], "knowledge", None, None, None, "default", "", None, None, None, None)))
  }

  /** Two tasks, the second with an unresolved profile, get no result each; in the other order both do. */
  lemma LateProfileLosesResults(backend: Vectorizer)
    ensures LosesResults(OneSlot(backend), [EmbedTask("1", "known"), EmbedTask("2", "unknown")])
    ensures !LosesResults(OneSlot(backend), [EmbedTask("2", "unknown"), EmbedTask("1", "known")])
  {
    assert |"known"| != |"unknown"|;
    var tasks := [EmbedTask("1", "known"), EmbedTask("2", "unknown")];
    assert ProfileFor(OneSlot(backend), tasks[1]).Unresolved?;
    assert ProfileFor(OneSlot(backend), EmbedTask("2", "unknown")).Unresolved?;
  }

  /** The batches that are executed task by task. */
  predicate Individually(env: Environment, tasks: seq<Task>) {
    !AllEmbed(tasks) || (AllSpecified(tasks) && AllResolved(env, tasks) && !AllAgree(env, tasks))
  }

  /** The batches that make one backend call. */
  predicate Together(env: Environment, tasks: seq<Task>) {
    tasks != [] && AllEmbed(tasks) && AllSpecified(tasks) && AllResolved(env, tasks) && AllAgree(env, tasks)
  }

  function FailAll(
    env: Environment, tasks: seq<Task>, status: Status, code: string, knowsProfile: bool): (rs: seq<TaskResult>)
    requires AllSpecified(tasks)
    ensures |rs| == |tasks|
  {
    seq(|tasks|, i requires 0 <= i < |tasks| =>
      FailedResult(tasks[i], status, code, InputBytes(env, tasks[i].spec.value.texts),
                   if knowsProfile && ProfileFor(env, tasks[i]).Resolved?
                   then Some(ProfileFor(env, tasks[i]).profile.id) else None))
  }

  /** A member's part of a successful batch is its result alone. */
  lemma PartIsAlone(env: Environment, cfg: Config, task: Task, world: Source -> Vector, batch: Batch)
    requires task.kind == "embed_texts" && task.spec.Some? && ProfileFor(env, task).Resolved?
    requires Alone(cfg, RequestOf(task.spec.value, ProfileFor(env, task).profile), env.backend, world) == Ok(batch)
    ensures PartFor(env, task, batch)
         == ExecutedAlone(env, cfg, task, InTime(false), world)
  {
    hide Direct, FromBatch;
  }

  /** What the shared backend call of agreeing tasks returns. */
  lemma TogetherFacts(
    env: Environment, cfg: Config, tasks: seq<Task>, meaning: string -> Source, world: Source -> Vector)
    requires Together(env, tasks) && OneProfilePerId(env, tasks) && HonestTasks(env, cfg, tasks, meaning, world)
    ensures var requests := Requests(env, tasks);
      var whole := Direct(cfg, requests, env.backend, world, false, false);
      && Honest(cfg, requests, env.backend, meaning, world)
      && (whole.Ok? <==> MembersFit(env, cfg, tasks, world))
      && (whole.Ok? ==> |whole.value| == |tasks| && forall i :: 0 <= i < |tasks| ==>
            PartFor(env, tasks[i], whole.value[i])
            == ExecutedAlone(env, cfg, tasks[i], InTime(false), world))
  {
    hide Direct, Honest, ExecutedAlone, PartFor, Alone;
    var requests := Requests(env, tasks);
    AgreeingIsUniform(env, tasks);
    forall i | 0 <= i < |requests| ensures Honest(cfg, [requests[i]], env.backend, meaning, world) {
      assert HonestTask(env, cfg, tasks[i], meaning, world);
    }
    HonestTogether(cfg, requests, env.backend, meaning, world);
    BatchEqualsMembers(cfg, requests, env.backend, world);
    var whole := Direct(cfg, requests, env.backend, world, false, false);
    if whole.Ok? {
      forall i | 0 <= i < |tasks|
        ensures PartFor(env, tasks[i], whole.value[i])
             == ExecutedAlone(env, cfg, tasks[i], InTime(false), world)
      {
        assert Ok(whole.value[i]) == Alone(cfg, requests[i], env.backend, world);
        PartIsAlone(env, cfg, tasks[i], world, whole.value[i]);
      }
    }
  }

  lemma CancelledHasNoResult(cfg: Config, requests: seq<Request>, v: Vectorizer, world: Source -> Vector)
    ensures Direct(cfg, requests, v, world, false, true).Err?
  {
  }

  class CoreTaskExecutor {
    const env: Environment
    const provider: EmbeddingProvider

    constructor (env: Environment, provider: EmbeddingProvider)
      ensures this.env == env && this.provider == provider
    {
      this.env, this.provider := env, provider;
    }

    /** The cache the tasks share agrees with the encoder. */
    ghost predicate CoherentCache(meaning: string -> Source, world: Source -> Vector)
      reads this, provider, provider.cache
    {
      Coherent(provider.Contents(), meaning, world)
    }

    /** `_run_bounded` around `embed_many`. */
    method RunBounded(
      requests: seq<Request>, bound: Bound, ghost meaning: string -> Source, ghost world: Source -> Vector)
      returns (run: Run<seq<Batch>>)
      modifies if provider.cache == null then {} else {provider.cache}
      ensures Honest(provider.cfg, requests, env.backend, meaning, world) && old(CoherentCache(meaning, world)) ==>
                && CoherentCache(meaning, world)
                && run == Bounded(bound,
                    Direct(provider.cfg, requests, env.backend, world, false, bound.InTime? && bound.cancelled))
      ensures run.Done? ==> |run.value| == |requests| > 0
      ensures run.Stopped? ==> run.status != Completed
    {
      hide Direct, Honest, Coherent;
      match bound {
        case NotStarted =>
          run := Stopped(WasCancelled, "cancelled");
        case GivenUp(timedOut, ranAnyway) =>
          if ranAnyway {
            var _ := provider.EmbedMany(requests, env.backend, false, false, meaning, world);
          }
          run := if timedOut then Stopped(TimedOut, "timeout") else Stopped(WasCancelled, "cancelled");
        case InTime(cancelled) =>
          var outcome := provider.EmbedMany(requests, env.backend, false, cancelled, meaning, world);
          if outcome.Ok? {
            run := Done(outcome.value);
          } else {
            run := Stopped(if outcome.error.Cancelled? then WasCancelled else Failed, Code(outcome.error));
          }
      }
    }

    /** The UTF-8 size of all texts. */
    method TotalBytes(texts: seq<string>) returns (bytes: nat)
      ensures bytes == InputBytes(env, texts)
    {
      bytes := 0;
      for k := 0 to |texts|
        invariant bytes == InputBytes(env, texts[..k])
      {
        assert texts[..k + 1][..k] == texts[..k];
        bytes := bytes + env.utf8(texts[k]);
      }
      assert texts[..|texts|] == texts;
    }

    /** `_execute_embed_texts`. */
    method ExecuteEmbedTexts(task: Task, bound: Bound, ghost meaning: string -> Source, ghost world: Source -> Vector)
      returns (r: TaskResult)
      requires task.kind == "embed_texts"
      modifies if provider.cache == null then {} else {provider.cache}
      ensures HonestTask(env, provider.cfg, task, meaning, world) && old(CoherentCache(meaning, world)) ==>
                CoherentCache(meaning, world) && r == ExecutedAlone(env, provider.cfg, task, bound, world)
      ensures r.taskId == task.id && r.kind == task.kind
    {
      hide Honest, Direct, Coherent, Bounded;
      if task.spec.None? {
        return FailedResult(task, Failed, "invalid_request", 0, None);
      }
      var spec := task.spec.value;
      var bytes := TotalBytes(spec.texts);
      var resolution := env.resolve(task.space, task.slot);
      if resolution.Unresolved? {
        return FailedResult(task, Failed, resolution.code, bytes, resolution.profileId);
      }
      var profile := resolution.profile;
      var namespace := if spec.cacheNamespace == "" then spec.privacyClass else spec.cacheNamespace;
      var request := Request(
        spec.texts, Some(profile), spec.purpose, spec.dimensions, spec.cacheKeys, namespace, spec.profileFingerprint,
        spec.configFingerprint, spec.privacyClass, spec.deadline, spec.role, spec.renderer);
      var run := RunBounded([request], bound, meaning, world);
      if run.Stopped? {
        return FailedResult(task, run.status, run.code, bytes, Some(profile.id));
      }
      var batch := run.value[0];
      if spec.dimensions.Some? && batch.dimensions != spec.dimensions.value {
        return FailedResult(task, Failed, "embedding_dimension_mismatch", bytes, Some(profile.id));
      }
      return TaskResult(task.id, task.kind, Completed, "", Some(batch), Some(profile.id), bytes,
                        |batch.vectors| * batch.dimensions * 4);
    }

    /** `execute`: the operation of a task is never looked at, only its kind. */
    method Execute(task: Task, bound: Bound, ghost meaning: string -> Source, ghost world: Source -> Vector)
      returns (r: TaskResult)
      modifies if provider.cache == null then {} else {provider.cache}
      ensures HonestTask(env, provider.cfg, task, meaning, world) && old(CoherentCache(meaning, world)) ==>
                CoherentCache(meaning, world) && r == ExecutedAlone(env, provider.cfg, task, bound, world)
      ensures Generates(task) ==> r == env.generate(task)
      ensures !Generates(task) ==> r.taskId == task.id && r.kind == task.kind
    {
      hide HonestTask, Coherent, EmbedAlone;
      if task.kind in {"generate_json", "object_resolution"} {
        return env.generate(task);
      }
      if task.kind == "embed_texts" {
        r := ExecuteEmbedTexts(task, bound, meaning, world);
      } else {
        r := FailedResult(task, UnknownKind, "unknown_task_kind", 0, None);
      }
    }

    ghost predicate Sound(tasks: seq<Task>, meaning: string -> Source, world: Source -> Vector)
      reads this, provider, provider.cache
    {
      && OneProfilePerId(env, tasks) && HonestTasks(env, provider.cfg, tasks, meaning, world)
      && CoherentCache(meaning, world)
    }

    method ExecuteEach(
      tasks: seq<Task>, bounds: seq<Bound>, ghost meaning: string -> Source, ghost world: Source -> Vector)
      returns (results: seq<TaskResult>)
      requires |bounds| >= |tasks|
      modifies if provider.cache == null then {} else {provider.cache}
      ensures |results| == |tasks|
      ensures forall i :: 0 <= i < |tasks| && !Generates(tasks[i]) ==> results[i].taskId == tasks[i].id
      ensures old(Sound(tasks, meaning, world)) ==>
                CoherentCache(meaning, world) && results == EachAlone(env, provider.cfg, tasks, bounds, world)
    {
      hide HonestTask, ExecutedAlone, Coherent;
      results := [];
      for k := 0 to |tasks|
        invariant |results| == k
        invariant forall i :: 0 <= i < k && !Generates(tasks[i]) ==> results[i].taskId == tasks[i].id
        invariant old(Sound(tasks, meaning, world)) ==> CoherentCache(meaning, world)
        invariant old(Sound(tasks, meaning, world)) ==>
                  results == EachAlone(env, provider.cfg, tasks, bounds, world)[..k]
      {
        var result := Execute(tasks[k], bounds[k], meaning, world);
        results := results + [result];
      }
    }

    /** The comparison of every task's settings with those of the first. */
    method CheckAgreement(tasks: seq<Task>) returns (agreed: bool)
      requires AllSpecified(tasks) && AllResolved(env, tasks)
      ensures agreed == AllAgree(env, tasks)
    {
      for k := 0 to |tasks|
        invariant forall i :: 0 <= i < k ==> AgreeAt(env, tasks, i)
      {
        var p := env.resolve(tasks[k].space, tasks[k].slot).profile;
        var q := env.resolve(tasks[0].space, tasks[0].slot).profile;
        var s, t := tasks[k].spec.value, tasks[0].spec.value;
        if (p.id, p.model, p.baseUrl, p.providerKind) != (q.id, q.model, q.baseUrl, q.providerKind)
          || s.profileFingerprint != t.profileFingerprint || s.configFingerprint != t.configFingerprint
          || s.dimensions != t.dimensions || s.privacyClass != t.privacyClass || s.cacheNamespace != t.cacheNamespace
          || s.deadline != t.deadline || s.role != t.role || s.renderer != t.renderer
        {
          assert !AgreeAt(env, tasks, k);
          return false;
        }
      }
      agreed := true;
    }

    /** The shared call of agreeing tasks, and the distribution of its batches. */
    method ExecuteTogether(
      tasks: seq<Task>, bound: Bound, ghost meaning: string -> Source, ghost world: Source -> Vector)
      returns (results: seq<TaskResult>)
      requires Together(env, tasks)
      modifies if provider.cache == null then {} else {provider.cache}
      ensures |results| == |tasks|
      ensures forall i :: 0 <= i < |tasks| ==> results[i].taskId == tasks[i].id
      ensures old(Sound(tasks, meaning, world)) ==> CoherentCache(meaning, world)
      ensures old(Sound(tasks, meaning, world)) && bound == InTime(false)
                && MembersFit(env, provider.cfg, tasks, world) ==>
                forall i :: 0 <= i < |tasks| ==>
                      results[i] == ExecutedAlone(env, provider.cfg, tasks[i], InTime(false), world)
      ensures old(Sound(tasks, meaning, world)) ==>
                var run := SharedRun(env, provider.cfg, tasks, bound, world);
                && (run.Done? <==> bound == InTime(false) && MembersFit(env, provider.cfg, tasks, world))
                && (run.Stopped? ==> AllFailWith(tasks, results, run.status, run.code))
    {
      hide Direct, Honest, Coherent, MembersFit, ExecutedAlone, AllAgree;
      if OneProfilePerId(env, tasks) && HonestTasks(env, provider.cfg, tasks, meaning, world) {
        TogetherFacts(env, provider.cfg, tasks, meaning, world);
      }
      var requests := Requests(env, tasks);
      CancelledHasNoResult(provider.cfg, requests, env.backend, world);
      var run := RunBounded(requests, bound, meaning, world);
      if run.Stopped? {
        results := FailAll(env, tasks, run.status, run.code, true);
        return;
      }
      results := [];
      for k := 0 to |tasks|
        invariant |results| == k
        invariant forall i :: 0 <= i < k ==>
                    results[i] == PartFor(env, tasks[i], run.value[i])
      {
        results := results + [PartFor(env, tasks[k], run.value[k])];
      }
    }

    /**
     * `execute_batch`; None where the source raises. Mixed or disagreeing batches reduce to
     * individual execution, and agreeing tasks that succeed alone get exactly that result.
     */
    method ExecuteBatch(
      tasks: seq<Task>, bounds: seq<Bound>, ghost meaning: string -> Source, ghost world: Source -> Vector)
      returns (results: Option<seq<TaskResult>>)
      requires |bounds| >= |tasks|
      modifies if provider.cache == null then {} else {provider.cache}
      ensures results.None? <==> LosesResults(env, tasks)
      ensures results.Some? ==> |results.value| == |tasks|
      ensures results.Some? ==> forall i :: 0 <= i < |tasks| && !Generates(tasks[i]) ==>
                results.value[i].taskId == tasks[i].id
      ensures old(Sound(tasks, meaning, world)) ==> CoherentCache(meaning, world)
      ensures old(Sound(tasks, meaning, world)) && Individually(env, tasks) ==>
                results == Some(EachAlone(env, provider.cfg, tasks, bounds, world))
      ensures old(Sound(tasks, meaning, world)) && Together(env, tasks) && bounds[0] == InTime(false)
              && MembersFit(env, provider.cfg, tasks, world) ==>
                results.Some? && forall i :: 0 <= i < |tasks| ==>
                  results.value[i] == ExecutedAlone(env, provider.cfg, tasks[i], InTime(false), world)
      ensures old(Sound(tasks, meaning, world)) && Together(env, tasks) ==>
                var run := SharedRun(env, provider.cfg, tasks, bounds[0], world);
                && (run.Done? <==> bounds[0] == InTime(false) && MembersFit(env, provider.cfg, tasks, world))
                && (run.Stopped? ==> results.Some? && AllFailWith(tasks, results.value, run.status, run.code))
      ensures tasks != [] && AllEmbed(tasks) && !AllSpecified(tasks) ==>
                results.Some? && AllFailWith(tasks, results.value, Failed, "invalid_request")
      ensures tasks != [] && AllEmbed(tasks) && AllSpecified(tasks) && ProfileFor(env, tasks[0]).Unresolved? ==>
                results.Some? && AllFailWith(tasks, results.value, Failed, ProfileFor(env, tasks[0]).code)
    {
      hide MembersFit, ExecutedAlone, SharedRun, Coherent, AllAgree, HonestTask;
      if tasks == [] {
        assert EachAlone(env, provider.cfg, tasks, bounds, world) == [];
        return Some([]);
      }
      if !AllEmbed(tasks) {
        var each := ExecuteEach(tasks, bounds, meaning, world);
        return Some(each);
      }
      if !AllSpecified(tasks) {
        return Some(seq(|tasks|, i requires 0 <= i < |tasks| =>
          FailedResult(tasks[i], Failed, "invalid_request", 0, None)));
      }
      for k := 0 to |tasks|
        invariant AllResolved(env, tasks[..k])
      {
        var resolution := ProfileFor(env, tasks[k]);
        if resolution.Unresolved? {
          if k == 0 {
            return Some(FailAll(env, tasks, Failed, resolution.code, false));
          }
          assert tasks[..k][0] == tasks[0];
          return None;
        }
      }
      assert tasks[..|tasks|] == tasks;
      var agreed := CheckAgreement(tasks);
      if !agreed {
        var each := ExecuteEach(tasks, bounds, meaning, world);
        return Some(each);
      }
      var together := ExecuteTogether(tasks, bounds[0], meaning, world);
      return Some(together);
    }
  }
}
