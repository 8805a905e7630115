/** Embedding requests, their cache keys, and the cache-free pointwise result they are measured against. */
module Embedding {
  import opened Text
  import opened EmbeddingKeys

  datatype Number = Finite(r: real) | NonFinite
  type Vector = seq<Number>

  datatype Profile = Profile(id: string, model: string, baseUrl: string, providerKind: string, maxInputTokens: int)

  datatype Request = Request(
    texts: seq<string>,
    profile: Option<Profile>,
    purpose: string,
    dimensions: Option<int>,
    cacheKeys: Option<seq<string>>,
    cacheNamespace: string,
    profileFingerprint: Option<string>,
    configFingerprint: Option<string>,
    privacyClass: string,
    deadline: Option<string>,
    role: Option<Role>,
    renderer: Option<string>)

  datatype Batch = Batch(
    vectors: seq<Vector>,
    model: string,
    modelVersion: string,
    dimensions: nat,
    purpose: string,
    role: Option<Role>,
    renderer: Option<string>)

  datatype EmbedError =
    | Cancelled
    | RequestError
    | TextTooLarge
    | BatchTooLarge
    | ModelError
    | IdentityInvalid
    | BackendRaised(code: string)
    | NonFiniteValue
    | DimensionMismatch
    | ResultInvalid

  datatype Outcome<+T> = Ok(value: T) | Err(error: EmbedError)

  /** What a call of the backend's `encode` does; `WrongSignature` is the `TypeError` of a role-less backend. */
  datatype Reply = Raised(code: string) | WrongSignature | Vectors(vectors: seq<Vector>)

  /** A backend instance: its stripped fingerprint, its dimension if it tells one, and its encoder. */
  datatype Vectorizer = Vectorizer(
    version: string,
    dimension: Option<int>,
    encode: (seq<string>, Option<Role>) -> Reply,
    encodePlain: seq<string> -> Reply)

  /** The metadata the identity fingerprint is computed from. */
  datatype Identity = Identity(
    model: string, version: string, dimension: Option<int>, baseUrl: string, providerKind: string, maxInputTokens: int)

  datatype Config = Config(maxTexts: nat, maxTextChars: nat, identityDigest: Identity -> string)

  // ---------------------------------------------------------------- request checks

  const PURPOSES: set<string> := {
    "object_query", "subject_query", "object_mention", "object_card", "object_signature", "value_record",
    "retrieval_query", "facet_catalog", "knowledge", "object_candidate_query", "object_identity_passage"}

  /** The role a purpose demands, if it demands one. */
  function RequiredRole(purpose: string): Option<Role> {
    if purpose == "object_candidate_query" then Some(Query)
    else if purpose == "object_identity_passage" then Some(Passage)
    else None
  }

  predicate Compatible(a: Request, b: Request)
    requires a.profile.Some? && b.profile.Some?
  {
    && a.profile.value.model == b.profile.value.model
    && a.profile.value.baseUrl == b.profile.value.baseUrl
    && a.profile.value.providerKind == b.profile.value.providerKind
    && a.dimensions == b.dimensions
    && a.cacheNamespace == b.cacheNamespace
    && a.profileFingerprint == b.profileFingerprint
    && a.configFingerprint == b.configFingerprint
    && a.privacyClass == b.privacyClass
    && a.deadline == b.deadline
    && a.role == b.role
    && a.renderer == b.renderer
  }

  /** Why a request cannot join a batch led by `first`. */
  function Problem(cfg: Config, r: Request, first: Request): Option<EmbedError>
    requires first.profile.Some?
  {
    if r.profile.None? then Some(RequestError)
    else if r.purpose !in PURPOSES then Some(RequestError)
    else if r.texts == [] then Some(RequestError)
    else if r.cacheKeys.Some? && |r.cacheKeys.value| != |r.texts| then Some(RequestError)
    else if RequiredRole(r.purpose).Some? && r.role != RequiredRole(r.purpose) then Some(RequestError)
    else if !Compatible(r, first) then Some(RequestError)
    else if exists i :: 0 <= i < |r.texts| && |r.texts[i]| > cfg.maxTextChars then Some(TextTooLarge)
    else None
  }

  /** A purpose that demands a role is admitted under that role alone. */
  lemma RolesEnforced(cfg: Config, r: Request, first: Request)
    requires first.profile.Some? && Problem(cfg, r, first).None?
    ensures r.purpose == "object_candidate_query" ==> r.role == Some(Query)
    ensures r.purpose == "object_identity_passage" ==> r.role == Some(Passage)
  {
    assert |"object_candidate_query"| != |"object_identity_passage"|;
  }

  function FirstProblem(cfg: Config, requests: seq<Request>, first: Request): (e: Option<EmbedError>)
    requires first.profile.Some?
    ensures e.Some? ==> e.value in {RequestError, TextTooLarge}
  {
    if requests == [] then None
    else if Problem(cfg, requests[0], first).Some? then Problem(cfg, requests[0], first)
    else FirstProblem(cfg, requests[1..], first)
  }

  lemma {:induction false} NoProblem(cfg: Config, requests: seq<Request>, first: Request)
    requires first.profile.Some?
    ensures FirstProblem(cfg, requests, first).None? <==>
            forall i :: 0 <= i < |requests| ==> Problem(cfg, requests[i], first).None?
  {
    if requests != [] {
      NoProblem(cfg, requests[1..], first);
      assert forall i :: 0 < i < |requests| ==> requests[i] == requests[1..][i - 1];
    }
  }

  // ---------------------------------------------------------------- identity, texts and keys

  /** `_profile_identity`: the fingerprint, or why there is none. */
  function Fingerprint(cfg: Config, p: Profile, v: Vectorizer): Outcome<string> {
    if v.version == "" || v.version == "unknown" then Err(ModelError)
    else if |v.version| > 500 || (v.dimension.Some? && !(0 < v.dimension.value <= 100000)) then Err(IdentityInvalid)
    else Ok(cfg.identityDigest(Identity(p.model, v.version, v.dimension, p.baseUrl, p.providerKind, p.maxInputTokens)))
  }

  /** What names a text in its key: the explicit key if there is a nonempty one, else the text. */
  function Content(r: Request, i: nat): string
    requires i < |r.texts|
  {
    var explicit := if r.cacheKeys.Some? && i < |r.cacheKeys.value| then r.cacheKeys.value[i] else "";
    if explicit != "" then explicit else r.texts[i]
  }

  function Namespace(r: Request): string {
    if r.cacheNamespace != "" then r.cacheNamespace else r.purpose
  }

  function Key(r: Request, i: nat, fingerprint: string): string
    requires i < |r.texts|
  {
    Material(fingerprint, Namespace(r), r.renderer, r.role, Content(r, i))
  }

  /**
   Texts without explicit keys share a key exactly when text, role, renderer name and namespace agree,
   where the purpose is the namespace of a request that names none.
   */
  lemma SharedKey(r: Request, i: nat, q: Request, j: nat, fingerprint: string)
    requires i < |r.texts| && j < |q.texts| && r.cacheKeys.None? && q.cacheKeys.None?
    requires Plain(fingerprint, r.cacheNamespace, r.renderer) && Plain(fingerprint, r.purpose, r.renderer)
    requires Plain(fingerprint, q.cacheNamespace, q.renderer) && Plain(fingerprint, q.purpose, q.renderer)
    ensures Key(r, i, fingerprint) == Key(q, j, fingerprint) <==>
            && r.texts[i] == q.texts[j] && r.role == q.role && RendererName(r.renderer) == RendererName(q.renderer)
            && (r.cacheNamespace != "" && q.cacheNamespace != "" ==> r.cacheNamespace == q.cacheNamespace)
            && (r.cacheNamespace == "" && q.cacheNamespace == "" ==> r.purpose == q.purpose)
            && (r.cacheNamespace == "" && q.cacheNamespace != "" ==> r.purpose == q.cacheNamespace)
            && (r.cacheNamespace != "" && q.cacheNamespace == "" ==> r.cacheNamespace == q.purpose)
  {
    hide Material, RendererName, Plain;
    EqualKeys(fingerprint, Namespace(r), r.renderer, r.role, Content(r, i),
              fingerprint, Namespace(q), q.renderer, q.role, Content(q, j));
  }

  function RequestKeys(r: Request, fingerprint: string): seq<string> {
    seq(|r.texts|, i requires 0 <= i < |r.texts| => Key(r, i, fingerprint))
  }

  function AllTexts(requests: seq<Request>): seq<string> {
    if requests == [] then [] else AllTexts(requests[..|requests| - 1]) + requests[|requests| - 1].texts
  }

  function AllKeys(requests: seq<Request>, fingerprint: string): (keys: seq<string>)
    ensures |keys| == |AllTexts(requests)|
  {
    if requests == [] then []
    else AllKeys(requests[..|requests| - 1], fingerprint) + RequestKeys(requests[|requests| - 1], fingerprint)
  }

  function Offset(requests: seq<Request>, i: nat): nat
    requires i <= |requests|
  {
    |AllTexts(requests[..i])|
  }

  /** A request's texts occupy their own slice of the flattened batch. */
  lemma {:induction false} SliceOfTexts(requests: seq<Request>, i: nat)
    requires i < |requests|
    ensures Offset(requests, i) + |requests[i].texts| == Offset(requests, i + 1) <= |AllTexts(requests)|
    ensures AllTexts(requests)[Offset(requests, i)..Offset(requests, i + 1)] == requests[i].texts
  {
    var last := |requests| - 1;
    var init := requests[..last];
    assert requests[..i + 1][..i] == requests[..i];
    if i == last {
      assert requests[..i + 1] == requests;
    } else {
      SliceOfTexts(init, i);
      assert init[..i] == requests[..i] && init[..i + 1] == requests[..i + 1];
    }
  }

  // ---------------------------------------------------------------- the pointwise reference

  /** What a deterministic encoder gives for these texts, one by one. */
  function Pointwise(
    world: Source -> Vector, fingerprint: string, role: Option<Role>, texts: seq<string>): (vs: seq<Vector>)
    ensures |vs| == |texts|
  {
    seq(|texts|, i requires 0 <= i < |texts| => world(Source(fingerprint, role, texts[i])))
  }

  function VectorProblem(v: Vector, expected: Option<int>): Option<EmbedError> {
    if v == [] then Some(ModelError)
    else if NonFinite in v then Some(NonFiniteValue)
    else if expected.Some? && |v| != expected.value then Some(DimensionMismatch)
    else None
  }

  function FirstVectorProblem(vectors: seq<Vector>, expected: Option<int>): (e: Option<EmbedError>)
    ensures e.Some? ==> e.value in {ModelError, NonFiniteValue, DimensionMismatch}
  {
    if vectors == [] then None
    else if VectorProblem(vectors[0], expected).Some? then VectorProblem(vectors[0], expected)
    else FirstVectorProblem(vectors[1..], expected)
  }

  predicate SameLength(vectors: seq<Vector>) {
    forall i, j :: 0 <= i < |vectors| && 0 <= j < |vectors| ==> |vectors[i]| == |vectors[j]|
  }

  /** `_validated_vectors`. */
  function Validation(vectors: seq<Vector>, expected: Option<int>): Option<EmbedError> {
    if FirstVectorProblem(vectors, expected).Some? then FirstVectorProblem(vectors, expected)
    else if !SameLength(vectors) then Some(DimensionMismatch)
    else None
  }

  lemma {:induction false} NoVectorProblem(vectors: seq<Vector>, expected: Option<int>)
    ensures FirstVectorProblem(vectors, expected).None? <==>
            forall i :: 0 <= i < |vectors| ==> VectorProblem(vectors[i], expected).None?
  {
    if vectors != [] {
      NoVectorProblem(vectors[1..], expected);
      assert forall i :: 0 < i < |vectors| ==> vectors[i] == vectors[1..][i - 1];
    }
  }

  function BatchOf(r: Request, vectors: seq<Vector>, model: string, fingerprint: string, dimension: nat): Batch {
    Batch(vectors, model, fingerprint, dimension, r.purpose, r.role, r.renderer)
  }

  /** Everything that can stop a batch before the backend is asked; Ok carries the fingerprint. */
  function Admission(cfg: Config, requests: seq<Request>, v: Vectorizer, cancelled: bool): (a: Outcome<string>)
    ensures a.Ok? ==> requests != [] && requests[0].profile.Some? && AllTexts(requests) != []
  {
    if cancelled then Err(Cancelled)
    else if requests == [] || requests[0].profile.None? then Err(RequestError)
    else
      match FirstProblem(cfg, requests, requests[0])
      case Some(e) => Err(e)
      case None =>
        SliceOfTexts(requests, 0);
        if |AllTexts(requests)| > cfg.maxTexts then Err(BatchTooLarge)
        else Fingerprint(cfg, requests[0].profile.value, v)
  }

  /** The result of a batch as if there were no cache and every text were encoded on its own. */
  function Direct(
    cfg: Config, requests: seq<Request>, v: Vectorizer, world: Source -> Vector,
    cancelledBefore: bool, cancelledDuring: bool): Outcome<seq<Batch>>
  {
    match Admission(cfg, requests, v, cancelledBefore)
    case Err(e) => Err(e)
    case Ok(fingerprint) =>
      var first := requests[0];
      var vectors := Pointwise(world, fingerprint, first.role, AllTexts(requests));
      if cancelledDuring then Err(Cancelled)
      else if Validation(vectors, v.dimension).Some? then Err(Validation(vectors, v.dimension).value)
      else if first.renderer == Some("") then Err(ResultInvalid)
      else
        Ok(seq(|requests|, i requires 0 <= i < |requests| =>
          BatchOf(requests[i], Pointwise(world, fingerprint, first.role, requests[i].texts),
                  first.profile.value.model, fingerprint, |vectors[0]|)))
  }

  // ---------------------------------------------------------------- cached and missing texts

  function MissingFrom(cached: seq<Option<Vector>>, i: nat): (missing: seq<nat>)
    requires i <= |cached|
    ensures forall k :: 0 <= k < |missing| ==> i <= missing[k] < |cached|
    decreases |cached| - i
  {
    if i == |cached| then []
    else if cached[i].None? then [i] + MissingFrom(cached, i + 1)
    else MissingFrom(cached, i + 1)
  }

  lemma {:induction false} MissingSnoc(cached: seq<Option<Vector>>, more: Option<Vector>, i: nat)
    requires i <= |cached|
    ensures MissingFrom(cached + [more], i) == MissingFrom(cached, i) + if more.None? then [|cached|] else []
    decreases |cached| - i
  {
    if i < |cached| {
      MissingSnoc(cached, more, i + 1);
      assert (cached + [more])[i] == cached[i];
    } else {
      assert MissingFrom(cached + [more], i + 1) == [];
    }
  }

  /** Cached vectors in place, the encoder's answers popped into the gaps. */
  function Merge(cached: seq<Option<Vector>>, raw: seq<Vector>, i: nat): seq<Vector>
    requires i <= |cached| && |raw| == |MissingFrom(cached, i)|
    decreases |cached| - i
  {
    if i == |cached| then []
    else if cached[i].Some? then [cached[i].value] + Merge(cached, raw, i + 1)
    else [raw[0]] + Merge(cached, raw[1..], i + 1)
  }

  /** Whatever the hit pattern, merging gives each position its own vector. */
  lemma {:induction false} MergeIsPointwise(cached: seq<Option<Vector>>, raw: seq<Vector>, i: nat, all: seq<Vector>)
    requires i <= |cached| == |all| && |raw| == |MissingFrom(cached, i)|
    requires forall j :: i <= j < |cached| && cached[j].Some? ==> cached[j].value == all[j]
    requires forall k :: 0 <= k < |raw| ==> raw[k] == all[MissingFrom(cached, i)[k]]
    ensures Merge(cached, raw, i) == all[i..]
    decreases |cached| - i
  {
    if i < |cached| {
      if cached[i].Some? {
        MergeIsPointwise(cached, raw, i + 1, all);
      } else {
        forall k | 0 <= k < |raw| - 1 ensures raw[1..][k] == all[MissingFrom(cached, i + 1)[k]] {
          assert MissingFrom(cached, i)[k + 1] == MissingFrom(cached, i + 1)[k];
        }
        MergeIsPointwise(cached, raw[1..], i + 1, all);
      }
      assert all[i..] == [all[i]] + all[i + 1..];
    }
  }

  // ---------------------------------------------------------------- coherence

  /** Every stored vector is the encoder's vector for what its key names. */
  ghost predicate Coherent(vectors: map<string, Vector>, meaning: string -> Source, world: Source -> Vector) {
    forall key :: key in vectors ==> vectors[key] == world(meaning(key))
  }

  /** The keys of a request name its texts under this identity. */
  ghost predicate NamesTexts(r: Request, fingerprint: string, meaning: string -> Source) {
    forall i :: 0 <= i < |r.texts| ==> meaning(Key(r, i, fingerprint)) == Source(fingerprint, r.role, r.texts[i])
  }

  ghost predicate AllNameTexts(requests: seq<Request>, fingerprint: string, meaning: string -> Source) {
    forall i :: 0 <= i < |requests| ==> NamesTexts(requests[i], fingerprint, meaning)
  }

  /**
   The backend encodes every text as the deterministic encoder does; one that takes no role may be
   asked without it, but only where there is none.
   */
  ghost predicate Faithful(v: Vectorizer, fingerprint: string, role: Option<Role>, world: Source -> Vector) {
    forall texts ::
      var expected := Vectors(Pointwise(world, fingerprint, role, texts));
      || v.encode(texts, role) == expected
      || (role.None? && v.encode(texts, None).WrongSignature? && v.encodePlain(texts) == expected)
  }

  /** What a batch assumes of its surroundings: honest names and a deterministic backend. */
  ghost predicate Honest(
    cfg: Config, requests: seq<Request>, v: Vectorizer, meaning: string -> Source, world: Source -> Vector)
  {
    forall fingerprint, cancelled :: Admission(cfg, requests, v, cancelled) == Ok(fingerprint) ==>
      AllNameTexts(requests, fingerprint, meaning) && Faithful(v, fingerprint, requests[0].role, world)
  }

  /** Requests without explicit keys always name their texts, by the injectivity of the key material. */
  lemma TextsNameThemselves(r: Request, fingerprint: string)
    requires r.cacheKeys.None?
    requires Plain(fingerprint, Namespace(r), r.renderer)
    ensures NamesTexts(r, fingerprint, Parsed)
  {
    forall i | 0 <= i < |r.texts| ensures Parsed(Key(r, i, fingerprint)) == Source(fingerprint, r.role, r.texts[i]) {
      ParsedMaterial(fingerprint, Namespace(r), r.renderer, r.role, r.texts[i]);
    }
  }

  /** The flattened keys name the flattened texts. */
  lemma {:induction false} FlatNames(
    requests: seq<Request>, fingerprint: string, role: Option<Role>, meaning: string -> Source)
    requires AllNameTexts(requests, fingerprint, meaning)
    requires forall i :: 0 <= i < |requests| ==> requests[i].role == role
    ensures forall k :: 0 <= k < |AllTexts(requests)| ==>
              meaning(AllKeys(requests, fingerprint)[k]) == Source(fingerprint, role, AllTexts(requests)[k])
  {
    hide Key;
    if requests != [] {
      var last := |requests| - 1;
      var init := requests[..last];
      FlatNames(init, fingerprint, role, meaning);
      assert NamesTexts(requests[last], fingerprint, meaning);
      forall k | |AllTexts(init)| <= k < |AllTexts(requests)|
        ensures meaning(AllKeys(requests, fingerprint)[k]) == Source(fingerprint, role, AllTexts(requests)[k])
      {
        var i := k - |AllTexts(init)|;
        assert AllKeys(requests, fingerprint)[k] == Key(requests[last], i, fingerprint);
      }
    }
  }

  /** A batch that passed its checks has one role throughout. */
  lemma AdmittedRole(cfg: Config, requests: seq<Request>, v: Vectorizer, cancelled: bool)
    requires Admission(cfg, requests, v, cancelled).Ok?
    ensures forall i :: 0 <= i < |requests| ==> requests[i].profile.Some? && Compatible(requests[i], requests[0])
  {
    NoProblem(cfg, requests, requests[0]);
    forall i | 0 <= i < |requests| ensures requests[i].profile.Some? && Compatible(requests[i], requests[0]) {
      assert Problem(cfg, requests[i], requests[0]).None?;
    }
  }
}
