/** The vector cache and the batched, cached, sliced `embed_many`. */
module EmbeddingService {
  import opened Text
  import opened EmbeddingKeys
  import opened Embedding

  class EmbeddingVectorCache {
    var vectors: map<string, Vector>
    var hits: nat
    var misses: nat

    constructor ()
      ensures vectors == map[] && hits == 0 && misses == 0
    {
      vectors, hits, misses := map[], 0, 0;
    }

    method Get(key: string) returns (value: Option<Vector>)
      modifies this`hits, this`misses
      ensures value == Stored(vectors, key)
      ensures hits == old(hits) + (if value.Some? then 1 else 0)
      ensures misses == old(misses) + (if value.None? then 1 else 0)
    {
      if key in vectors {
        hits := hits + 1;
        return Some(vectors[key]);
      }
      misses := misses + 1;
      return None;
    }

    method Put(key: string, vector: Vector)
      modifies this`vectors
      ensures vectors == old(vectors)[key := vector]
    {
      vectors := vectors[key := vector];
    }

    method Clear()
      modifies this
      ensures vectors == map[] && hits == 0 && misses == 0
    {
      vectors, hits, misses := map[], 0, 0;
    }
  }

  function Stored(vectors: map<string, Vector>, key: string): Option<Vector> {
    if key in vectors then Some(vectors[key]) else None
  }

  function LookedUp(vectors: map<string, Vector>, keys: seq<string>): (found: seq<Option<Vector>>)
    ensures |found| == |keys|
  {
    seq(|keys|, i requires 0 <= i < |keys| => Stored(vectors, keys[i]))
  }

  /** Indices of the texts the cache did not have. */
  method MissingIndices(cached: seq<Option<Vector>>) returns (missing: seq<nat>)
    ensures missing == MissingFrom(cached, 0)
  {
    missing := [];
    assert cached[..0] == [];
    for i := 0 to |cached|
      invariant missing == MissingFrom(cached[..i], 0)
    {
      MissingSnoc(cached[..i], cached[i], 0);
      assert cached[..i + 1] == cached[..i] + [cached[i]];
      if cached[i].None? {
        missing := missing + [i];
      }
    }
    assert cached[..|cached|] == cached;
  }

  /** The comprehension that pops the backend's answers into the gaps. */
  method FillIn(cached: seq<Option<Vector>>, raw: seq<Vector>) returns (vectors: seq<Vector>)
    requires |raw| == |MissingFrom(cached, 0)|
    ensures vectors == Merge(cached, raw, 0)
  {
    vectors := [];
    var left := raw;
    for i := 0 to |cached|
      invariant |left| == |MissingFrom(cached, i)|
      invariant vectors + Merge(cached, left, i) == Merge(cached, raw, 0)
    {
      if cached[i].Some? {
        vectors := vectors + [cached[i].value];
      } else {
        vectors := vectors + [left[0]];
        left := left[1..];
      }
    }
  }

  /** `_validated_vectors`. */
  method ValidatedVectors(raw: seq<Vector>, expected: Option<int>) returns (r: Outcome<seq<Vector>>)
    ensures r == Validated(raw, expected)
  {
    assert raw[0..] == raw;
    for i := 0 to |raw|
      invariant FirstVectorProblem(raw, expected) == FirstVectorProblem(raw[i..], expected)
    {
      assert raw[i..][0] == raw[i] && raw[i..][1..] == raw[i + 1..];
      if raw[i] == [] {
        return Err(ModelError);
      }
      if NonFinite in raw[i] {
        return Err(NonFiniteValue);
      }
      if expected.Some? && |raw[i]| != expected.value {
        return Err(DimensionMismatch);
      }
    }
    if exists i :: 0 <= i < |raw| && |raw[i]| != |raw[0]| {
      return Err(DimensionMismatch);
    }
    return Ok(raw);
  }

  /** The request loop at the head of `embed_many`. */
  method CheckRequests(cfg: Config, requests: seq<Request>, first: Request) returns (e: Option<EmbedError>)
    requires first.profile.Some?
    ensures e == FirstProblem(cfg, requests, first)
  {
    hide Problem;
    assert requests[0..] == requests;
    for i := 0 to |requests|
      invariant FirstProblem(cfg, requests, first) == FirstProblem(cfg, requests[i..], first)
    {
      assert requests[i..][0] == requests[i] && requests[i..][1..] == requests[i + 1..];
      var problem := CheckRequest(cfg, requests[i], first);
      if problem.Some? {
        return problem;
      }
    }
    return None;
  }

  /** The checks on one request, in the order the source makes them. */
  method CheckRequest(cfg: Config, request: Request, first: Request) returns (e: Option<EmbedError>)
    requires first.profile.Some?
    ensures e == Problem(cfg, request, first)
  {
    if request.profile.None? || request.purpose !in PURPOSES || request.texts == [] {
      return Some(RequestError);
    }
    if request.cacheKeys.Some? && |request.cacheKeys.value| != |request.texts| {
      return Some(RequestError);
    }
    var roles := map["object_candidate_query" := Query, "object_identity_passage" := Passage];
    if request.purpose in roles && request.role != Some(roles[request.purpose]) {
      return Some(RequestError);
    }
    var profile, expected := request.profile.value, first.profile.value;
    if || profile.model != expected.model || profile.baseUrl != expected.baseUrl
       || profile.providerKind != expected.providerKind || request.dimensions != first.dimensions
       || request.cacheNamespace != first.cacheNamespace || request.profileFingerprint != first.profileFingerprint
       || request.configFingerprint != first.configFingerprint || request.privacyClass != first.privacyClass
       || request.deadline != first.deadline || request.role != first.role || request.renderer != first.renderer
    {
      return Some(RequestError);
    }
    for i := 0 to |request.texts|
      invariant forall k :: 0 <= k < i ==> |request.texts[k]| <= cfg.maxTextChars
    {
      if |request.texts[i]| > cfg.maxTextChars {
        return Some(TextTooLarge);
      }
    }
    return None;
  }

  /** The key of one text, from its explicit name or itself. */
  method CacheKey(request: Request, index: nat, fingerprint: string) returns (key: string)
    requires index < |request.texts|
    ensures key == Key(request, index, fingerprint)
  {
    var explicit := "";
    if request.cacheKeys.Some? && index < |request.cacheKeys.value| {
      explicit := request.cacheKeys.value[index];
    }
    var namespace := if request.cacheNamespace == "" then request.purpose else request.cacheNamespace;
    var content := if explicit == "" then request.texts[index] else explicit;
    key := Material(fingerprint, namespace, request.renderer, request.role, content);
  }

  /** Each request gets the slice of vectors that belongs to its texts. */
  method Slices(requests: seq<Request>, validated: seq<Vector>, model: string, fingerprint: string, dimension: nat)
    returns (batches: seq<Batch>)
    requires |validated| == |AllTexts(requests)|
    ensures |batches| == |requests|
    ensures forall i :: 0 <= i < |requests| ==>
              batches[i] == BatchOf(requests[i], SliceFor(requests, validated, i), model, fingerprint, dimension)
  {
    hide AllTexts;
    batches := [];
    var offset := 0;
    assert Offset(requests, 0) == 0 by { NoTexts(requests); }
    for k := 0 to |requests|
      invariant |batches| == k && offset == Offset(requests, k)
      invariant forall i :: 0 <= i < k ==>
                  batches[i] == BatchOf(requests[i], SliceFor(requests, validated, i), model, fingerprint, dimension)
    {
      var size := |requests[k].texts|;
      SliceOfTexts(requests, k);
      batches := batches + [BatchOf(requests[k], validated[offset..offset + size], model, fingerprint, dimension)];
      offset := offset + size;
    }
  }

  /** The vectors at the positions of one request's texts. */
  function SliceFor(requests: seq<Request>, validated: seq<Vector>, i: nat): (slice: seq<Vector>)
    requires i < |requests| && |validated| == |AllTexts(requests)|
    ensures |slice| == |requests[i].texts|
  {
    SliceOfTexts(requests, i);
    validated[Offset(requests, i)..Offset(requests, i + 1)]
  }

  /** Slicing the pointwise vectors of the whole batch gives each request's own pointwise vectors. */
  lemma SliceIsPointwise(
    requests: seq<Request>, i: nat, world: Source -> Vector, fingerprint: string, role: Option<Role>)
    requires i < |requests|
    ensures SliceFor(requests, Pointwise(world, fingerprint, role, AllTexts(requests)), i)
         == Pointwise(world, fingerprint, role, requests[i].texts)
  {
    hide AllTexts, Offset, Pointwise;
    SliceOfTexts(requests, i);
    PointwiseSlice(world, fingerprint, role, AllTexts(requests), Offset(requests, i), Offset(requests, i + 1));
  }

  lemma PointwiseSlice(
    world: Source -> Vector, fingerprint: string, role: Option<Role>, texts: seq<string>, a: nat, b: nat)
    requires a <= b <= |texts|
    ensures Pointwise(world, fingerprint, role, texts)[a..b] == Pointwise(world, fingerprint, role, texts[a..b])
  {
  }

  lemma NoTexts(requests: seq<Request>)
    ensures Offset(requests, 0) == 0
  {
    assert requests[..0] == [];
  }

  /** The map after the missing positions below n were put. */
  function After(
    vectors: map<string, Vector>, keys: seq<string>, validated: seq<Vector>, cached: seq<Option<Vector>>, n: nat)
    : (after: map<string, Vector>)
    requires n <= |keys| == |validated| == |cached|
    ensures forall k :: k in after <==> k in vectors || exists i :: 0 <= i < n && cached[i].None? && keys[i] == k
  {
    if n == 0 then vectors
    else
      var before := After(vectors, keys, validated, cached, n - 1);
      if cached[n - 1].None? then before[keys[n - 1] := validated[n - 1]] else before
  }

  /** Storing never overwrites what was there. */
  lemma {:induction false} AfterKeeps(
    vectors: map<string, Vector>, keys: seq<string>, validated: seq<Vector>, cached: seq<Option<Vector>>, n: nat)
    requires n <= |keys| == |validated| == |cached| && cached == LookedUp(vectors, keys)
    ensures var after := After(vectors, keys, validated, cached, n);
      forall k :: k in vectors ==> k in after && after[k] == vectors[k]
  {
    if n > 0 {
      AfterKeeps(vectors, keys, validated, cached, n - 1);
      assert cached[n - 1] == Stored(vectors, keys[n - 1]);
    }
  }

  lemma AfterHas(vectors: map<string, Vector>, keys: seq<string>, validated: seq<Vector>, cached: seq<Option<Vector>>)
    requires |keys| == |validated| == |cached| && cached == LookedUp(vectors, keys)
    ensures forall k :: k in After(vectors, keys, validated, cached, |keys|) <==> k in vectors || k in keys
  {
    forall k | k in keys ensures k in After(vectors, keys, validated, cached, |keys|) {
      var i :| 0 <= i < |keys| && keys[i] == k;
      assert cached[i] == Stored(vectors, keys[i]);
      if cached[i].None? {
        assert exists j :: 0 <= j < |keys| && cached[j].None? && keys[j] == k;
      }
    }
  }

  lemma {:induction false} AfterIsCoherent(
    vectors: map<string, Vector>, keys: seq<string>, validated: seq<Vector>, cached: seq<Option<Vector>>, n: nat,
    meaning: string -> Source, world: Source -> Vector)
    requires n <= |keys| == |validated| == |cached| && Coherent(vectors, meaning, world)
    requires forall i :: 0 <= i < n ==> validated[i] == world(meaning(keys[i]))
    ensures Coherent(After(vectors, keys, validated, cached, n), meaning, world)
  {
    if n > 0 {
      AfterIsCoherent(vectors, keys, validated, cached, n - 1, meaning, world);
    }
  }

  /** In a coherent cache, what is found under a batch's keys is what the encoder would give. */
  lemma FoundIsPointwise(
    requests: seq<Request>, fingerprint: string, role: Option<Role>, vectors: map<string, Vector>,
    meaning: string -> Source, world: Source -> Vector)
    requires AllNameTexts(requests, fingerprint, meaning) && Coherent(vectors, meaning, world)
    requires forall i :: 0 <= i < |requests| ==> requests[i].role == role
    ensures var all := Pointwise(world, fingerprint, role, AllTexts(requests));
      && Agrees(LookedUp(vectors, AllKeys(requests, fingerprint)), all)
      && AllNamed(AllKeys(requests, fingerprint), all, meaning, world)
  {
    FlatNames(requests, fingerprint, role, meaning);
  }

  ghost predicate Agrees(cached: seq<Option<Vector>>, all: seq<Vector>) {
    |cached| == |all| && forall j :: 0 <= j < |cached| && cached[j].Some? ==> cached[j].value == all[j]
  }

  class EmbeddingProvider {
    const cfg: Config
    const cache: EmbeddingVectorCache?

    constructor (cfg: Config, cache: EmbeddingVectorCache?)
      ensures this.cfg == cfg && this.cache == cache
    {
      this.cfg, this.cache := cfg, cache;
    }

    /** The cached contents; without a cache nothing is ever found. */
    ghost function Contents(): map<string, Vector>
      reads this, cache
    {
      if cache == null then map[] else cache.vectors
    }

    /** The key loop: one key and one cache lookup per text of every request. */
    method LookUp(requests: seq<Request>, fingerprint: string) returns (keys: seq<string>, cached: seq<Option<Vector>>)
      modifies if cache == null then {} else {cache}
      ensures keys == AllKeys(requests, fingerprint)
      ensures cached == LookedUp(Contents(), keys)
      ensures Contents() == old(Contents())
      ensures cache != null ==> cache.hits + cache.misses == old(cache.hits + cache.misses) + |AllTexts(requests)|
    {
      hide Key;
      keys, cached := [], [];
      assert requests[..0] == [];
      for k := 0 to |requests|
        invariant keys == AllKeys(requests[..k], fingerprint)
        invariant cached == LookedUp(Contents(), keys) && Contents() == old(Contents())
        invariant cache != null ==> cache.hits + cache.misses == old(cache.hits + cache.misses) + |keys|
      {
        var request := requests[k];
        ghost var before := keys;
        for index := 0 to |request.texts|
          invariant keys == before + RequestKeys(request, fingerprint)[..index]
          invariant cached == LookedUp(Contents(), keys) && Contents() == old(Contents())
          invariant cache != null ==> cache.hits + cache.misses == old(cache.hits + cache.misses) + |keys|
        {
          var key := CacheKey(request, index, fingerprint);
          var vector := None;
          if cache != null {
            vector := cache.Get(key);
          }
          assert RequestKeys(request, fingerprint)[index] == key;
          keys := keys + [key];
          cached := cached + [vector];
        }
        assert requests[..k + 1][..k] == requests[..k];
      }
      assert requests[..|requests|] == requests;
    }

    /** Puts the vectors that were missing. */
    method Store(keys: seq<string>, validated: seq<Vector>, cached: seq<Option<Vector>>)
      requires |keys| == |validated| == |cached|
      modifies if cache == null then {} else {cache}
      ensures cache != null ==> cache.vectors == After(old(cache.vectors), keys, validated, cached, |keys|)
    {
      if cache != null {
        for i := 0 to |keys|
          invariant cache.vectors == After(old(cache.vectors), keys, validated, cached, i)
        {
          if cached[i].None? {
            cache.Put(keys[i], validated[i]);
          }
        }
      }
    }

    /**
     * `embed_many`. With honest names, a deterministic backend and a coherent cache the result is
     * that of the cache-free pointwise encoder, error cases included, and the cache stays coherent.
     * Whatever the backend does, entries are never overwritten, and only a result that is refused
     * after validation (an empty renderer version) can fail with new entries in the cache.
     */
    method EmbedMany(
      requests: seq<Request>, v: Vectorizer, cancelledBefore: bool, cancelledDuring: bool,
      ghost meaning: string -> Source, ghost world: Source -> Vector)
      returns (r: Outcome<seq<Batch>>)
      modifies if cache == null then {} else {cache}
      ensures Honest(cfg, requests, v, meaning, world) && old(Coherent(Contents(), meaning, world)) ==>
                r == Direct(cfg, requests, v, world, cancelledBefore, cancelledDuring)
      ensures Honest(cfg, requests, v, meaning, world) && old(Coherent(Contents(), meaning, world)) ==>
                Coherent(Contents(), meaning, world)
      // unless the renderer version is empty, a failure of any kind leaves the cache unchanged
      ensures r.Err? && (requests == [] || requests[0].renderer != Some("")) ==> Contents() == old(Contents())
      ensures r.Err? && r.error != ResultInvalid ==> Contents() == old(Contents())
      ensures forall key :: key in old(Contents()) ==> key in Contents() && Contents()[key] == old(Contents())[key]
      ensures r.Ok? ==> AllSane(requests, r.value, v.dimension)
      // the outcome with any backend and any cache
      ensures Embeds(cfg, requests, v, cancelledBefore, cancelledDuring, old(Contents()), r)
      // a success, and a result refused for its empty renderer version, has stored exactly the batch's keys
      ensures r.Ok? || r == Err(ResultInvalid) ==>
                var admission := Admission(cfg, requests, v, cancelledBefore);
                && admission.Ok?
                && (r.Ok? ==> r.value[0].modelVersion == admission.value)
                && (cache != null ==> forall key ::
                      key in Contents() <==> key in old(Contents()) || key in AllKeys(requests, admission.value))
    {
      hide Honest, Direct, Admission, Assembled, Coherent, AllTexts, AllKeys, Finished;
      var admitted := Admit(cfg, requests, v, cancelledBefore);
      DirectWhenRefused(cfg, requests, v, world, cancelledBefore, cancelledDuring);
      if admitted.Err? {
        return Err(admitted.error);
      }
      var keys, cached := LookUp(requests, admitted.value);
      DirectWhenAdmitted(cfg, requests, v, world, cancelledBefore, cancelledDuring);
      if cancelledDuring {
        return Err(Cancelled);
      }
      if Honest(cfg, requests, v, meaning, world) && Coherent(Contents(), meaning, world) {
        HonestFacts(cfg, requests, v, cancelledBefore, Contents(), meaning, world);
      }
      r := EncodeAndStore(requests, v, admitted.value, keys, cached, meaning, world);
    }

    /** The part of `embed_many` inside its try block. */
    method EncodeAndStore(
      requests: seq<Request>, v: Vectorizer, fingerprint: string, keys: seq<string>, cached: seq<Option<Vector>>,
      ghost meaning: string -> Source, ghost world: Source -> Vector)
      returns (r: Outcome<seq<Batch>>)
      requires requests != [] && requests[0].profile.Some? && AllTexts(requests) != []
      requires keys == AllKeys(requests, fingerprint) && cached == LookedUp(Contents(), keys)
      modifies if cache == null then {} else {cache}
      ensures var all := Pointwise(world, fingerprint, requests[0].role, AllTexts(requests));
        Faithful(v, fingerprint, requests[0].role, world) && Agrees(cached, all) ==>
          && r == Assembled(requests, fingerprint, all, v.dimension)
          && (old(Coherent(Contents(), meaning, world)) && AllNamed(keys, all, meaning, world) ==>
                Coherent(Contents(), meaning, world))
      ensures r.Err? && r.error != ResultInvalid ==> Contents() == old(Contents())
      ensures forall key :: key in old(Contents()) ==> key in Contents() && Contents()[key] == old(Contents())[key]
      ensures Finished(requests, v, fingerprint, cached, r)
      ensures r.Ok? ==> AllSane(requests, r.value, v.dimension) && r.value[0].modelVersion == fingerprint
      ensures r == Err(ResultInvalid) ==> requests[0].renderer == Some("")
      ensures (r.Ok? || r == Err(ResultInvalid)) && cache != null ==>
                forall key :: key in Contents() <==> key in old(Contents()) || key in keys
    {
      hide Validation, AllTexts, AllKeys, Faithful, After, LookedUp, Completes;
      var first := requests[0];
      var completed := Complete(v, AllTexts(requests), first.role, cached);
      ghost var all := Pointwise(world, fingerprint, first.role, AllTexts(requests));
      if Faithful(v, fingerprint, first.role, world) && Agrees(cached, all) {
        CompletesPointwise(v, AllTexts(requests), first.role, cached, completed, fingerprint, world);
      }
      if completed.Err? {
        return Err(completed.error);
      }
      var validated := completed.value;
      Store(keys, validated, cached);
      AfterKeeps(old(Contents()), keys, validated, cached, |keys|);
      AfterHas(old(Contents()), keys, validated, cached);
      if old(Coherent(Contents(), meaning, world)) && AllNamed(keys, validated, meaning, world) {
        AfterIsCoherent(old(Contents()), keys, validated, cached, |keys|, meaning, world);
      }
      if first.renderer == Some("") {
        return Err(ResultInvalid);
      }
      var batches := Slices(requests, validated, first.profile.value.model, fingerprint, |validated[0]|);
      SlicesAreSane(requests, validated, batches, v.dimension);
      assert batches == Assembled(requests, fingerprint, validated, v.dimension).value;
      r := Ok(batches);
    }
  }

  ghost predicate AllNamed(
    keys: seq<string>, vectors: seq<Vector>, meaning: string -> Source, world: Source -> Vector) {
    |keys| == |vectors| && forall i :: 0 <= i < |keys| ==> vectors[i] == world(meaning(keys[i]))
  }

  /** The outcome of a batch whose vectors are these, in the order of its texts. */
  ghost function Assembled(requests: seq<Request>, fingerprint: string, vectors: seq<Vector>, expected: Option<int>)
    : Outcome<seq<Batch>>
    requires requests != [] && requests[0].profile.Some? && |vectors| == |AllTexts(requests)| > 0
  {
    if Validated(vectors, expected).Err? then Err(Validated(vectors, expected).error)
    else if requests[0].renderer == Some("") then Err(ResultInvalid)
    else
      Ok(seq(|requests|, i requires 0 <= i < |requests| =>
        BatchOf(requests[i], SliceFor(requests, vectors, i), requests[0].profile.value.model, fingerprint,
              |vectors[0]|)))
  }

  /** The completed vectors, or the reason why there are none, decide the outcome. */
  ghost predicate Finished(
    requests: seq<Request>, v: Vectorizer, fingerprint: string, cached: seq<Option<Vector>>, r: Outcome<seq<Batch>>)
    requires requests != [] && requests[0].profile.Some? && |cached| == |AllTexts(requests)| > 0
  {
    exists completed ::
      && Completes(v, AllTexts(requests), requests[0].role, cached, completed)
      && if completed.Err? then r == Err(completed.error)
         else
           && |completed.value| == |AllTexts(requests)|
           && r == Assembled(requests, fingerprint, completed.value, v.dimension)
  }

  /** What `embed_many` returns with any backend and any cache contents. */
  ghost predicate Embeds(
    cfg: Config, requests: seq<Request>, v: Vectorizer, cancelledBefore: bool, cancelledDuring: bool,
    vectors: map<string, Vector>, r: Outcome<seq<Batch>>)
  {
    match Admission(cfg, requests, v, cancelledBefore)
    case Err(e) => r == Err(e)
    case Ok(fingerprint) =>
      if cancelledDuring then r == Err(Cancelled)
      else Finished(requests, v, fingerprint, LookedUp(vectors, AllKeys(requests, fingerprint)), r)
  }

  /** All checks before the key loop, in the order the source makes them. */
  method Admit(cfg: Config, requests: seq<Request>, v: Vectorizer, cancelled: bool) returns (a: Outcome<string>)
    ensures a == Admission(cfg, requests, v, cancelled)
  {
    if cancelled {
      return Err(Cancelled);
    }
    if requests == [] || requests[0].profile.None? {
      return Err(RequestError);
    }
    var problem := CheckRequests(cfg, requests, requests[0]);
    if problem.Some? {
      return Err(problem.value);
    }
    if |AllTexts(requests)| > cfg.maxTexts {
      return Err(BatchTooLarge);
    }
    a := ProfileIdentity(cfg, requests[0].profile.value, v);
  }

  /** `_profile_identity`. */
  method ProfileIdentity(cfg: Config, profile: Profile, v: Vectorizer) returns (a: Outcome<string>)
    ensures a == Fingerprint(cfg, profile, v)
  {
    if v.version in {"", "unknown"} {
      return Err(ModelError);
    }
    if |v.version| > 500 {
      return Err(IdentityInvalid);
    }
    if v.dimension.Some? && (v.dimension.value <= 0 || v.dimension.value > 100000) {
      return Err(IdentityInvalid);
    }
    var identity := Identity(
      profile.model, v.version, v.dimension, profile.baseUrl, profile.providerKind, profile.maxInputTokens);
    return Ok(cfg.identityDigest(identity));
  }

  /** The texts the cache did not have, in order. */
  function Wanted(texts: seq<string>, cached: seq<Option<Vector>>): seq<string>
    requires |texts| == |cached|
  {
    var missing := MissingFrom(cached, 0);
    seq(|missing|, k requires 0 <= k < |missing| => texts[missing[k]])
  }

  /** The vectors of a batch whose missing ones are these. */
  function Filled(cached: seq<Option<Vector>>, raw: seq<Vector>, expected: Option<int>): Outcome<seq<Vector>> {
    if |raw| != |MissingFrom(cached, 0)| then Err(ModelError) else Validated(Merge(cached, raw, 0), expected)
  }

  /** What a raised error, a refused signature or returned vectors make of a batch. */
  ghost predicate Follows(reply: Reply, cached: seq<Option<Vector>>, expected: Option<int>, r: Outcome<seq<Vector>>) {
    match reply
    case Raised(code) => r == Err(BackendRaised(code))
    case WrongSignature => r == Err(BackendRaised("execution_failed"))
    case Vectors(raw) => r == Filled(cached, raw, expected)
  }

  /**
   What comes of a batch with any backend: it is asked for the missing texts only, with their role,
   and without one only if there is none and its signature does not take one.
   */
  ghost predicate Completes(
    v: Vectorizer, texts: seq<string>, role: Option<Role>, cached: seq<Option<Vector>>, r: Outcome<seq<Vector>>)
    requires |texts| == |cached|
  {
    var wanted := Wanted(texts, cached);
    if wanted == [] then r == Filled(cached, [], v.dimension)
    else if role.Some? then Follows(v.encode(wanted, role), cached, v.dimension, r)
    else if !v.encode(wanted, None).WrongSignature? then Follows(v.encode(wanted, None), cached, v.dimension, r)
    else Follows(v.encodePlain(wanted), cached, v.dimension, r)
  }

  /** Asks the backend for the missing texts and validates the completed vectors. */
  method Complete(v: Vectorizer, texts: seq<string>, role: Option<Role>, cached: seq<Option<Vector>>)
    returns (r: Outcome<seq<Vector>>)
    requires |cached| == |texts|
    ensures r.Ok? ==> |r.value| == |texts| && Validation(r.value, v.dimension).None?
    ensures r.Err? ==> r.error != ResultInvalid
    ensures Completes(v, texts, role, cached, r)
  {
    hide Validation, Merge;
    var missing := MissingIndices(cached);
    var raw: seq<Vector> := [];
    if missing != [] {
      var wanted := seq(|missing|, k requires 0 <= k < |missing| => texts[missing[k]]);
      var reply := v.encode(wanted, role);
      if reply.WrongSignature? && role.None? {
        reply := v.encodePlain(wanted);
      }
      if !reply.Vectors? {
        return Err(BackendRaised(if reply.Raised? then reply.code else "execution_failed"));
      }
      raw := reply.vectors;
    }
    if |raw| != |missing| {
      return Err(ModelError);
    }
    var vectors := FillIn(cached, raw);
    MergeLength(cached, raw, 0);
    ValidationErrors(vectors, v.dimension);
    r := ValidatedVectors(vectors, v.dimension);
  }

  lemma ValidationErrors(vectors: seq<Vector>, expected: Option<int>)
    ensures Validation(vectors, expected) != Some(ResultInvalid)
  {
  }

  /** With a deterministic backend and a cache that agrees with it, a batch is completed pointwise. */
  lemma CompletesPointwise(
    v: Vectorizer, texts: seq<string>, role: Option<Role>, cached: seq<Option<Vector>>, r: Outcome<seq<Vector>>,
    fingerprint: string, world: Source -> Vector)
    requires |cached| == |texts| && Completes(v, texts, role, cached, r)
    requires Faithful(v, fingerprint, role, world) && Agrees(cached, Pointwise(world, fingerprint, role, texts))
    ensures r == Validated(Pointwise(world, fingerprint, role, texts), v.dimension)
  {
    hide Validated, Merge, Pointwise, Wanted;
    var all := Pointwise(world, fingerprint, role, texts);
    var wanted := Wanted(texts, cached);
    var raw := Pointwise(world, fingerprint, role, wanted);
    WantedPointwise(texts, role, cached, fingerprint, world);
    assert all[0..] == all;
    MergeIsPointwise(cached, raw, 0, all);
    assert wanted == [] ==> raw == [];
  }

  lemma WantedPointwise(
    texts: seq<string>, role: Option<Role>, cached: seq<Option<Vector>>, fingerprint: string, world: Source -> Vector)
    requires |cached| == |texts|
    ensures var missing, raw := MissingFrom(cached, 0), Pointwise(world, fingerprint, role, Wanted(texts, cached));
      && |raw| == |missing| == |Wanted(texts, cached)|
      && forall k :: 0 <= k < |raw| ==> raw[k] == Pointwise(world, fingerprint, role, texts)[missing[k]]
  {
  }

  /** Nonempty vectors of one finite length, which is the backend's if it tells one. */
  ghost predicate Sane(b: Batch, expected: Option<int>) {
    && b.dimensions > 0
    && (expected.Some? ==> b.dimensions == expected.value)
    && forall i :: 0 <= i < |b.vectors| ==> |b.vectors[i]| == b.dimensions && NonFinite !in b.vectors[i]
  }

  /** One batch per request, with one vector for each of its texts. */
  ghost predicate AllSane(requests: seq<Request>, batches: seq<Batch>, expected: Option<int>) {
    && |batches| == |requests| > 0
    && forall i :: 0 <= i < |requests| ==> |batches[i].vectors| == |requests[i].texts| && Sane(batches[i], expected)
  }

  lemma SlicesAreSane(requests: seq<Request>, validated: seq<Vector>, batches: seq<Batch>, expected: Option<int>)
    requires |validated| == |AllTexts(requests)| > 0 && Validation(validated, expected).None?
    requires |batches| == |requests|
    requires forall i :: 0 <= i < |requests| ==>
               batches[i].vectors == SliceFor(requests, validated, i) && batches[i].dimensions == |validated[0]|
    ensures forall i :: 0 <= i < |requests| ==> Sane(batches[i], expected)
  {
    hide AllTexts;
    NoVectorProblem(validated, expected);
    assert VectorProblem(validated[0], expected).None?;
    forall i | 0 <= i < |requests| ensures Sane(batches[i], expected) {
      SliceOfTexts(requests, i);
      forall k | 0 <= k < |batches[i].vectors|
        ensures |batches[i].vectors[k]| == |validated[0]| && NonFinite !in batches[i].vectors[k]
      {
        assert batches[i].vectors[k] == validated[Offset(requests, i) + k];
        assert VectorProblem(validated[Offset(requests, i) + k], expected).None?;
      }
    }
  }

  lemma HonestFacts(
    cfg: Config, requests: seq<Request>, v: Vectorizer, cancelled: bool, vectors: map<string, Vector>,
    meaning: string -> Source, world: Source -> Vector)
    requires Honest(cfg, requests, v, meaning, world) && Coherent(vectors, meaning, world)
    requires Admission(cfg, requests, v, cancelled).Ok?
    ensures var fingerprint := Admission(cfg, requests, v, cancelled).value;
      var role := requests[0].role;
      var all := Pointwise(world, fingerprint, role, AllTexts(requests));
      && Faithful(v, fingerprint, role, world)
      && Agrees(LookedUp(vectors, AllKeys(requests, fingerprint)), all)
      && AllNamed(AllKeys(requests, fingerprint), all, meaning, world)
  {
    hide AllTexts, AllKeys, Admission, Compatible, Coherent, AllNameTexts;
    hide Faithful, Pointwise, LookedUp, Agrees, AllNamed;
    var fingerprint, role := Admission(cfg, requests, v, cancelled).value, requests[0].role;
    OneRole(cfg, requests, v, cancelled);
    FoundIsPointwise(requests, fingerprint, role, vectors, meaning, world);
  }

  lemma OneRole(cfg: Config, requests: seq<Request>, v: Vectorizer, cancelled: bool)
    requires Admission(cfg, requests, v, cancelled).Ok?
    ensures forall i :: 0 <= i < |requests| ==> requests[i].role == requests[0].role
  {
    hide Admission;
    AdmittedRole(cfg, requests, v, cancelled);
  }

  lemma DirectWhenRefused(
    cfg: Config, requests: seq<Request>, v: Vectorizer, world: Source -> Vector,
    cancelledBefore: bool, cancelledDuring: bool)
    ensures Admission(cfg, requests, v, cancelledBefore).Err? ==>
              && Admission(cfg, requests, v, cancelledBefore).error != ResultInvalid
              && Direct(cfg, requests, v, world, cancelledBefore, cancelledDuring)
                 == Err(Admission(cfg, requests, v, cancelledBefore).error)
  {
  }

  /** The pointwise result is assembled from the slices of the pointwise vectors. */
  lemma DirectWhenAdmitted(
    cfg: Config, requests: seq<Request>, v: Vectorizer, world: Source -> Vector,
    cancelledBefore: bool, cancelledDuring: bool)
    requires Admission(cfg, requests, v, cancelledBefore).Ok?
    ensures var fingerprint := Admission(cfg, requests, v, cancelledBefore).value;
      var all := Pointwise(world, fingerprint, requests[0].role, AllTexts(requests));
      Direct(cfg, requests, v, world, cancelledBefore, cancelledDuring) ==
      if cancelledDuring then Err(Cancelled) else Assembled(requests, fingerprint, all, v.dimension)
  {
    hide Validation, AllTexts, Admission, SliceFor;
    var fingerprint := Admission(cfg, requests, v, cancelledBefore).value;
    forall i | 0 <= i < |requests|
      ensures SliceFor(requests, Pointwise(world, fingerprint, requests[0].role, AllTexts(requests)), i)
           == Pointwise(world, fingerprint, requests[0].role, requests[i].texts)
    {
      SliceIsPointwise(requests, i, world, fingerprint, requests[0].role);
    }
    var all := Pointwise(world, fingerprint, requests[0].role, AllTexts(requests));
    var direct := Direct(cfg, requests, v, world, cancelledBefore, cancelledDuring);
    if direct.Ok? {
      assert direct.value == Assembled(requests, fingerprint, all, v.dimension).value;
    }
  }

  lemma {:induction false} MergeLength(cached: seq<Option<Vector>>, raw: seq<Vector>, i: nat)
    requires i <= |cached| && |raw| == |MissingFrom(cached, i)|
    ensures |Merge(cached, raw, i)| == |cached| - i
    decreases |cached| - i
  {
    if i < |cached| {
      MergeLength(cached, if cached[i].Some? then raw else raw[1..], i + 1);
    }
  }

  function Validated(vectors: seq<Vector>, expected: Option<int>): Outcome<seq<Vector>> {
    if Validation(vectors, expected).Some? then Err(Validation(vectors, expected).value) else Ok(vectors)
  }
}
