/** A request that `embed_many` refuses after its vector has been stored. */
module EmbeddingWitness {
  import opened Text
  import opened EmbeddingKeys
  import opened Embedding
  import opened EmbeddingService

  const ONE: Vector := [Finite(1.0)]

  /** A backend that encodes every text alike. */
  function Constant(): Vectorizer {
    Vectorizer("v1", Some(1), (texts: seq<string>, role: Option<Role>) => Vectors(Ones(|texts|)),
               (texts: seq<string>) => Vectors(Ones(|texts|)))
  }

  function Ones(n: nat): (vs: seq<Vector>)
    ensures |vs| == n && forall i :: 0 <= i < n ==> vs[i] == ONE
  {
    seq(n, _ => ONE)
  }

  function Limits(digest: string): Config {
    Config(64, 8000, (_: Identity) => digest)
  }

  /** One short text, no explicit key, and an empty renderer version. */
  function OneText(): Request {
    Request(
      ["a"], Some(Profile("p", "m", "u", "k", 1)), "knowledge", None, None, "n",
      None, None, "default", None, None, Some(""))
  }

  /** A request that passes its own checks is admitted alone under the identity's digest. */
  lemma OneTextAdmitted(digest: string)
    ensures Admission(Limits(digest), [OneText()], Constant(), false) == Ok(digest)
    ensures AllTexts([OneText()]) == ["a"]
  {
    var request := OneText();
    assert [request][..0] == [] && [request][1..] == [];
    NoOwnProblem(digest);
    NoProblem(Limits(digest), [request], request);
    assert FirstProblem(Limits(digest), [request], request).None?;
    assert AllTexts([request]) == [] + ["a"];
    VersionKnown(digest);
  }

  lemma NoOwnProblem(digest: string)
    ensures Problem(Limits(digest), OneText(), OneText()).None?
  {
    var request := OneText();
    assert request.purpose in PURPOSES;
    assert |"knowledge"| != |"object_candidate_query"| && |"knowledge"| != |"object_identity_passage"|;
    assert RequiredRole(request.purpose).None?;
    assert forall i :: 0 <= i < |request.texts| ==> |request.texts[i]| == 1;
  }

  lemma VersionKnown(digest: string)
    ensures Fingerprint(Limits(digest), OneText().profile.value, Constant()) == Ok(digest)
  {
    assert |"v1"| == 2 && |"unknown"| == 7;
  }

  lemma ConstantIsFaithful(digest: string, world: Source -> Vector)
    requires forall s :: world(s) == ONE
    ensures Faithful(Constant(), digest, None, world)
  {
    forall texts ensures Constant().encode(texts, None) == Vectors(Pointwise(world, digest, None, texts)) {
      assert Pointwise(world, digest, None, texts) == Ones(|texts|);
    }
  }

  lemma OneTextNamed(digest: string, meaning: string -> Source)
    requires forall key :: meaning(key) == Source(digest, None, "a")
    ensures AllNameTexts([OneText()], digest, meaning)
  {
    hide Key;
    forall i | 0 <= i < |OneText().texts|
      ensures meaning(Key(OneText(), i, digest)) == Source(digest, None, OneText().texts[i])
    {
    }
  }

  lemma OneTextHonest(digest: string, meaning: string -> Source, world: Source -> Vector)
    requires forall key :: meaning(key) == Source(digest, None, "a")
    requires forall s :: world(s) == ONE
    ensures Honest(Limits(digest), [OneText()], Constant(), meaning, world)
  {
    hide Faithful, AllNameTexts, Admission;
    var cfg, requests, v := Limits(digest), [OneText()], Constant();
    forall fingerprint, cancelled | Admission(cfg, requests, v, cancelled) == Ok(fingerprint)
      ensures AllNameTexts(requests, fingerprint, meaning) && Faithful(v, fingerprint, requests[0].role, world)
    {
      OneTextAdmitted(digest);
      AdmittedMeansNotCancelled(cfg, requests, v, cancelled);
      ConstantIsFaithful(digest, world);
      OneTextNamed(digest, meaning);
    }
  }

  lemma AdmittedMeansNotCancelled(cfg: Config, requests: seq<Request>, v: Vectorizer, cancelled: bool)
    requires Admission(cfg, requests, v, cancelled).Ok?
    ensures !cancelled
  {
  }

  lemma OneTextRefused(digest: string, world: Source -> Vector)
    requires forall s :: world(s) == ONE
    ensures Direct(Limits(digest), [OneText()], Constant(), world, false, false) == Err(ResultInvalid)
  {
    hide Admission, Validation;
    OneTextAdmitted(digest);
    assert Pointwise(world, digest, None, ["a"]) == [ONE];
    OneIsValid();
  }

  lemma OneIsValid()
    ensures Validation([ONE], Some(1)).None?
  {
    NoVectorProblem([ONE], Some(1));
    assert ONE[0] == Finite(1.0) && NonFinite !in ONE;
    assert VectorProblem([ONE][0], Some(1)).None?;
  }

  /** With an empty renderer version the result is refused, and its vector stays in the cache. */
  method RefusedButStored(digest: string) returns (provider: EmbeddingProvider, r: Outcome<seq<Batch>>)
    ensures r == Err(ResultInvalid)
    ensures provider.cache != null && Key(OneText(), 0, digest) in provider.cache.vectors
  {
    hide Direct, Honest, Admission;
    var cache := new EmbeddingVectorCache();
    provider := new EmbeddingProvider(Limits(digest), cache);
    ghost var meaning := (key: string) => Source(digest, None, "a");
    ghost var world := (s: Source) => ONE;
    OneTextAdmitted(digest);
    OneTextHonest(digest, meaning, world);
    OneTextRefused(digest, world);
    r := provider.EmbedMany([OneText()], Constant(), false, false, meaning, world);
    OnlyKey(digest);
  }

  lemma OnlyKey(digest: string)
    ensures Key(OneText(), 0, digest) in AllKeys([OneText()], digest)
  {
    hide Key;
    var keys := AllKeys([OneText()], digest);
    assert [OneText()][..0] == [];
    assert keys == RequestKeys(OneText(), digest);
    assert keys[0] == Key(OneText(), 0, digest);
  }
}
