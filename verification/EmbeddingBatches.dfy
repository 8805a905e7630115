/** A batch of compatible embedding requests gives each member what it would get alone. */
module EmbeddingBatches {
  import opened Text
  import opened EmbeddingKeys
  import opened Embedding

  predicate SameIdentity(p: Profile, q: Profile) {
    p.model == q.model && p.baseUrl == q.baseUrl && p.providerKind == q.providerKind
          && p.maxInputTokens == q.maxInputTokens
  }

  /** Requests that may share one backend call: compatible, and under one model identity. */
  ghost predicate Uniform(requests: seq<Request>) {
    requests != [] && requests[0].profile.Some? &&
    forall i :: 0 <= i < |requests| ==> MatchesFirst(requests[i], requests[0])
  }

  predicate MatchesFirst(r: Request, first: Request) {
    && r.profile.Some? && first.profile.Some?
    && Compatible(r, first) && SameIdentity(r.profile.value, first.profile.value)
  }

  lemma {:induction false} MemberTexts(requests: seq<Request>, i: nat)
    requires i < |requests|
    ensures AllTexts([requests[i]]) == requests[i].texts && |requests[i].texts| <= |AllTexts(requests)|
  {
    SliceOfTexts(requests, i);
    assert [requests[i]][..0] == [];
  }

  /** A member is admitted alone, under the same fingerprint, exactly when it does not hold up the batch. */
  lemma AloneAdmission(cfg: Config, r: Request, first: Request, v: Vectorizer)
    requires MatchesFirst(r, first)
    ensures Admission(cfg, [r], v, false).Ok? <==>
            && Problem(cfg, r, first).None?
            && |r.texts| <= cfg.maxTexts
            && Fingerprint(cfg, first.profile.value, v).Ok?
    ensures Admission(cfg, [r], v, false).Ok? ==>
            Admission(cfg, [r], v, false) == Fingerprint(cfg, first.profile.value, v)
  {
    MemberTexts([r], 0);
    NoProblem(cfg, [r], r);
  }

  lemma BatchAdmission(cfg: Config, requests: seq<Request>, v: Vectorizer)
    requires Uniform(requests)
    ensures Admission(cfg, requests, v, false).Ok? <==>
            && |AllTexts(requests)| <= cfg.maxTexts
            && forall i :: 0 <= i < |requests| ==> Admission(cfg, [requests[i]], v, false).Ok?
    ensures Admission(cfg, requests, v, false).Ok? ==>
            forall i :: 0 <= i < |requests| ==>
              Admission(cfg, [requests[i]], v, false) == Admission(cfg, requests, v, false)
  {
    hide Problem, AllTexts;
    NoProblem(cfg, requests, requests[0]);
    forall i | 0 <= i < |requests|
      ensures |requests[i].texts| <= |AllTexts(requests)|
      ensures Admission(cfg, [requests[i]], v, false).Ok? <==>
              && Problem(cfg, requests[i], requests[0]).None?
              && |requests[i].texts| <= cfg.maxTexts
              && Fingerprint(cfg, requests[0].profile.value, v).Ok?
      ensures Admission(cfg, [requests[i]], v, false).Ok? ==>
              Admission(cfg, [requests[i]], v, false) == Fingerprint(cfg, requests[0].profile.value, v)
    {
      assert MatchesFirst(requests[i], requests[0]);
      AloneAdmission(cfg, requests[i], requests[0], v);
      MemberTexts(requests, i);
    }
    assert Admission(cfg, [requests[0]], v, false).Ok? ==> Fingerprint(cfg, requests[0].profile.value, v).Ok?;
  }

  lemma {:induction false} FlatValidation(
    requests: seq<Request>, expected: Option<int>, world: Source -> Vector, fingerprint: string, role: Option<Role>)
    ensures FirstVectorProblem(Pointwise(world, fingerprint, role, AllTexts(requests)), expected).None? <==>
            forall i :: 0 <= i < |requests| ==>
              FirstVectorProblem(Pointwise(world, fingerprint, role, requests[i].texts), expected).None?
  {
    hide VectorProblem;
    if requests != [] {
      var last := |requests| - 1;
      var init := requests[..last];
      FlatValidation(init, expected, world, fingerprint, role);
      var a, b := Pointwise(world, fingerprint, role, AllTexts(init)),
            Pointwise(world, fingerprint, role, requests[last].texts);
      assert Pointwise(world, fingerprint, role, AllTexts(requests)) == a + b;
      JoinedProblem(a, b, expected);
      assert forall i :: 0 <= i < last ==> init[i] == requests[i];
    } else {
      assert Pointwise(world, fingerprint, role, AllTexts(requests)) == [];
    }
  }

  lemma {:induction false} JoinedProblem(a: seq<Vector>, b: seq<Vector>, expected: Option<int>)
    ensures FirstVectorProblem(a + b, expected).None? <==>
            FirstVectorProblem(a, expected).None? && FirstVectorProblem(b, expected).None?
  {
    hide VectorProblem;
    if a == [] {
      assert a + b == b;
    } else {
      JoinedProblem(a[1..], b, expected);
      assert (a + b)[1..] == a[1..] + b;
    }
  }

  ghost predicate AllLength(vectors: seq<Vector>, d: nat) {
    forall i :: 0 <= i < |vectors| ==> |vectors[i]| == d
  }

  lemma LengthOfFirst(vectors: seq<Vector>)
    requires vectors != []
    ensures SameLength(vectors) <==> AllLength(vectors, |vectors[0]|)
  {
  }

  lemma {:induction false} FlatLength(
    requests: seq<Request>, d: nat, world: Source -> Vector, fingerprint: string, role: Option<Role>)
    ensures AllLength(Pointwise(world, fingerprint, role, AllTexts(requests)), d) <==>
            forall i :: 0 <= i < |requests| ==> AllLength(Pointwise(world, fingerprint, role, requests[i].texts), d)
  {
    if requests != [] {
      var last := |requests| - 1;
      var init := requests[..last];
      FlatLength(init, d, world, fingerprint, role);
      var a, b := Pointwise(world, fingerprint, role, AllTexts(init)),
            Pointwise(world, fingerprint, role, requests[last].texts);
      assert Pointwise(world, fingerprint, role, AllTexts(requests)) == a + b;
      JoinedLength(a, b, d);
      assert forall i :: 0 <= i < last ==> init[i] == requests[i];
    }
  }

  lemma JoinedLength(a: seq<Vector>, b: seq<Vector>, d: nat)
    ensures AllLength(a + b, d) <==> AllLength(a, d) && AllLength(b, d)
  {
    assert forall i :: 0 <= i < |a| ==> (a + b)[i] == a[i];
    assert forall i :: 0 <= i < |b| ==> (a + b)[|a| + i] == b[i];
  }

  /** Executing one request on its own. */
  function Alone(cfg: Config, r: Request, v: Vectorizer, world: Source -> Vector): Outcome<Batch> {
    var result := Direct(cfg, [r], v, world, false, false);
    if result.Err? then Err(result.error) else Ok(result.value[0])
  }

  lemma AloneIs(cfg: Config, r: Request, v: Vectorizer, world: Source -> Vector, fingerprint: string)
    requires r.profile.Some? && r.texts != [] && Admission(cfg, [r], v, false) == Ok(fingerprint)
    ensures var vectors := Pointwise(world, fingerprint, r.role, r.texts);
      && (Alone(cfg, r, v, world).Ok? <==>
          && FirstVectorProblem(vectors, v.dimension).None? && AllLength(vectors, |vectors[0]|)
          && r.renderer != Some(""))
      && (Alone(cfg, r, v, world).Ok? ==>
          Alone(cfg, r, v, world).value == BatchOf(r, vectors, r.profile.value.model, fingerprint, |vectors[0]|))
  {
    hide Admission;
    MemberTexts([r], 0);
    LengthOfFirst(Pointwise(world, fingerprint, r.role, r.texts));
  }

  /** All members, alone, give vectors of one dimension. */
  ghost predicate OneDimension(cfg: Config, requests: seq<Request>, v: Vectorizer, world: Source -> Vector)
    requires forall i :: 0 <= i < |requests| ==> Alone(cfg, requests[i], v, world).Ok?
  {
    forall i :: 0 <= i < |requests| ==>
      Alone(cfg, requests[i], v, world).value.dimensions == Alone(cfg, requests[0], v, world).value.dimensions
  }

  /** A batch refused at the door, by its size or by some member, has no result. */
  lemma RefusedBatch(cfg: Config, requests: seq<Request>, v: Vectorizer, world: Source -> Vector)
    requires Uniform(requests) && Admission(cfg, requests, v, false).Err?
    ensures Direct(cfg, requests, v, world, false, false).Err?
    ensures |AllTexts(requests)| <= cfg.maxTexts ==>
              exists i :: 0 <= i < |requests| && Alone(cfg, requests[i], v, world).Err?
  {
    hide Admission;
    BatchAdmission(cfg, requests, v);
    if |AllTexts(requests)| <= cfg.maxTexts {
      var i :| 0 <= i < |requests| && !Admission(cfg, [requests[i]], v, false).Ok?;
      assert Alone(cfg, requests[i], v, world).Err?;
    }
  }

  lemma MemberFacts(
    cfg: Config, requests: seq<Request>, v: Vectorizer, world: Source -> Vector, fingerprint: string, i: nat)
    requires Uniform(requests) && Admission(cfg, requests, v, false) == Ok(fingerprint) && i < |requests|
    ensures requests[i].texts != [] && requests[i].profile.Some?
    ensures requests[i].role == requests[0].role && requests[i].renderer == requests[0].renderer
    ensures requests[i].profile.value.model == requests[0].profile.value.model
    ensures var vectors := Pointwise(world, fingerprint, requests[i].role, requests[i].texts);
      && (Alone(cfg, requests[i], v, world).Ok? <==>
          && FirstVectorProblem(vectors, v.dimension).None? && AllLength(vectors, |vectors[0]|)
          && requests[i].renderer != Some(""))
      && (Alone(cfg, requests[i], v, world).Ok? ==>
          Alone(cfg, requests[i], v, world).value
          == BatchOf(requests[i], vectors, requests[i].profile.value.model, fingerprint, |vectors[0]|))
  {
    assert MatchesFirst(requests[i], requests[0]);
    NoProblem(cfg, requests, requests[0]);
    assert Problem(cfg, requests[i], requests[0]).None?;
    BatchAdmission(cfg, requests, v);
    AloneIs(cfg, requests[i], v, world, fingerprint);
  }

  /**
   * A batch of uniform requests succeeds exactly when its texts fit, every member succeeds alone and
   * all give one dimension; then each member's part is what it gets alone.
   */
  lemma BatchEqualsMembers(cfg: Config, requests: seq<Request>, v: Vectorizer, world: Source -> Vector)
    requires Uniform(requests)
    ensures var whole := Direct(cfg, requests, v, world, false, false);
      && (whole.Ok? <==>
          && |AllTexts(requests)| <= cfg.maxTexts
          && (forall i :: 0 <= i < |requests| ==> Alone(cfg, requests[i], v, world).Ok?)
          && OneDimension(cfg, requests, v, world))
      && (whole.Ok? ==>
          && |whole.value| == |requests|
          && forall i :: 0 <= i < |requests| ==> Ok(whole.value[i]) == Alone(cfg, requests[i], v, world))
  {
    hide Admission, Alone, FirstVectorProblem, AllTexts;
    var whole := Direct(cfg, requests, v, world, false, false);
    if Admission(cfg, requests, v, false).Err? {
      RefusedBatch(cfg, requests, v, world);
    } else {
      var fingerprint := Admission(cfg, requests, v, false).value;
      var role := requests[0].role;
      BatchAdmission(cfg, requests, v);
      MemberFacts(cfg, requests, v, world, fingerprint, 0);
      FirstOfAll(requests);
      var d := |Pointwise(world, fingerprint, role, AllTexts(requests))[0]|;
      LengthOfFirst(Pointwise(world, fingerprint, role, AllTexts(requests)));
      FlatValidation(requests, v.dimension, world, fingerprint, role);
      FlatLength(requests, d, world, fingerprint, role);
      forall i | 0 <= i < |requests|
        ensures var vectors := Pointwise(world, fingerprint, role, requests[i].texts);
          && vectors != []
          && (Alone(cfg, requests[i], v, world).Ok? <==>
              && FirstVectorProblem(vectors, v.dimension).None? && AllLength(vectors, |vectors[0]|)
              && requests[0].renderer != Some(""))
          && (Alone(cfg, requests[i], v, world).Ok? ==>
              Alone(cfg, requests[i], v, world).value
              == BatchOf(requests[i], vectors, requests[0].profile.value.model, fingerprint, |vectors[0]|))
      {
        MemberFacts(cfg, requests, v, world, fingerprint, i);
      }
    }
  }

  lemma FirstOfAll(requests: seq<Request>)
    requires requests != [] && requests[0].texts != []
    ensures AllTexts(requests) != [] && requests[0].texts[0] == AllTexts(requests)[0]
  {
    SliceOfTexts(requests, 0);
    assert requests[..0] == [];
    assert AllTexts(requests)[0..|requests[0].texts|][0] == AllTexts(requests)[0];
  }

  /** With a backend that tells its dimension, all successful members have it. */
  lemma KnownDimension(cfg: Config, requests: seq<Request>, v: Vectorizer, world: Source -> Vector)
    requires v.dimension.Some? && forall i :: 0 <= i < |requests| ==> Alone(cfg, requests[i], v, world).Ok?
    ensures OneDimension(cfg, requests, v, world)
  {
    hide Alone;
    forall i | 0 <= i < |requests| ensures Alone(cfg, requests[i], v, world).value.dimensions == v.dimension.value {
      AloneHasDimension(cfg, requests[i], v, world);
    }
  }

  lemma AloneHasDimension(cfg: Config, r: Request, v: Vectorizer, world: Source -> Vector)
    requires v.dimension.Some? && Alone(cfg, r, v, world).Ok?
    ensures Alone(cfg, r, v, world).value.dimensions == v.dimension.value
  {
    var fingerprint := Admission(cfg, [r], v, false).value;
    var vectors := Pointwise(world, fingerprint, r.role, AllTexts([r]));
    NoVectorProblem(vectors, v.dimension);
    assert VectorProblem(vectors[0], v.dimension).None?;
  }

  /** What each member assumes of its surroundings alone suffices for the batch. */
  lemma HonestTogether(
    cfg: Config, requests: seq<Request>, v: Vectorizer, meaning: string -> Source, world: Source -> Vector)
    requires Uniform(requests)
    requires forall i :: 0 <= i < |requests| ==> Honest(cfg, [requests[i]], v, meaning, world)
    ensures Honest(cfg, requests, v, meaning, world)
  {
    hide Admission, Faithful, NamesTexts, Honest;
    forall fingerprint, cancelled | Admission(cfg, requests, v, cancelled) == Ok(fingerprint)
      ensures AllNameTexts(requests, fingerprint, meaning) && Faithful(v, fingerprint, requests[0].role, world)
    {
      NotCancelled(cfg, requests, v, cancelled);
      BatchAdmission(cfg, requests, v);
      forall i | 0 <= i < |requests|
        ensures NamesTexts(requests[i], fingerprint, meaning) && Faithful(v, fingerprint, requests[i].role, world)
      {
        HonestMember(cfg, requests[i], v, fingerprint, meaning, world);
      }
    }
    AllHonest(cfg, requests, v, meaning, world);
  }

  lemma HonestMember(
    cfg: Config, r: Request, v: Vectorizer, fingerprint: string, meaning: string -> Source,
    world: Source -> Vector)
    requires Honest(cfg, [r], v, meaning, world) && Admission(cfg, [r], v, false) == Ok(fingerprint)
    ensures NamesTexts(r, fingerprint, meaning) && Faithful(v, fingerprint, r.role, world)
  {
    hide Admission, Faithful, NamesTexts;
    assert AllNameTexts([r], fingerprint, meaning);
    assert NamesTexts([r][0], fingerprint, meaning);
  }

  lemma AllHonest(
    cfg: Config, requests: seq<Request>, v: Vectorizer, meaning: string -> Source, world: Source -> Vector)
    requires requests != []
    requires forall fingerprint, cancelled :: Admission(cfg, requests, v, cancelled) == Ok(fingerprint) ==>
      AllNameTexts(requests, fingerprint, meaning) && Faithful(v, fingerprint, requests[0].role, world)
    ensures Honest(cfg, requests, v, meaning, world)
  {
    hide Admission, Faithful, NamesTexts;
  }

  lemma NotCancelled(cfg: Config, requests: seq<Request>, v: Vectorizer, cancelled: bool)
    requires Admission(cfg, requests, v, cancelled).Ok?
    ensures !cancelled
  {
  }
}
