# LedgerMind Local: verified model of its core logic

This project models the decision-making parts of LedgerMind Local, the service that stands between
clients, inference providers and the Core process, and proves what each part promises for every input
and every run. One module follows one component; `dafny verify dfyconfig.toml` checks all of them.

| component | modules |
|---|---|
| schema checker, strict schema profile, `generate_json` | `SchemaMeaning`, `SchemaChecker`, `SchemaReading`, `SchemaTheory`, `SchemaFaults`, `SchemaTermination`, `StrictProfile`, `StrictProfileRules`, `StrictProfileLimits`, `StructuredJson`, `GenerationLaws`, `StrictGate` |
| inference profiles, capability cache, probes, downgrades | `Profiles`, `ProfileStore`, `CapabilityRuns`, `Downgrades` |
| embedding batches and their cache, task execution | `EmbeddingKeys`, `Embedding`, `EmbeddingService`, `EmbeddingBatches`, `EmbeddingWitness`, `TaskExecutor` |
| Core IPC | `Framing`, `Supervisor` |
| process lifecycle and service lock | `Lifecycle`, `ServiceLock` |
| coordinated restore | `CoordinatedRestore` |
| reranking, packing and delivery of memory | `Reranker`, `TokenPattern`, `Injection`, `Packing`, `Delivery` |
| export walk, input budget | `ExportCursor`, `TokenBudget` |
| shared | `Text`, `JsonValues` |

Code that works by changing things in place is modelled by classes and loops (`InferenceProfileStore`,
`EmbeddingVectorCache`, `EmbeddingProvider`, `CoreTaskExecutor`, `CoreProcess`, `CoreSupervisor`,
`LocalRuntime`, `CoordinatedRestoreService`, `TokenBudgetEstimator`, the checker's loops); code made of expressions is modelled by
functions. The lock file is a transition system over system calls, because its property is about
interleavings. Whatever the component does not decide itself is a parameter: provider answers, bytes sent
by Core, deadlines that pass, threads that outlive their shutdown, failing writes, the stack left for
recursion, the encoder, the scorer. SHA-256 is taken as injective, so a digest is represented by its material.

Main results:

- What a schema means is stated on its JSON alone (`SchemaMeaning`). A report with any limit of at least one
  is empty exactly for conforming values, holds nothing but faults under their own codes and paths, and below
  its limit all of them; a limited run gives exactly the first issues of the unlimited one. The checker
  returns on every value exactly if no `$ref`/`oneOf` cycle can be reached; to every reachable cycle there is
  a value that leads into it.
- `generate_json` executes at most two requests, each behind a passed budget check; a strict request runs
  once, in strict mode, behind an open capability gate, and any result it returns conforms to its schema.
- A fresh capability observation always goes back to a passing probe of a profile with the same identity,
  field by field, and changing any of these fields and changing it back never revives an old one. At most three automatic `generate_json` calls downgrade
  between probes.
- Embedding a batch through the cache gives, errors included, what encoding every text on its own gives;
  with any backend the outcome is stated from its reply to the missing texts under the request's role.
  A batch of agreeing tasks succeeds exactly when its members do alone, fit, and share a dimension.
- A running Core process is always handshaken and in sync when the channel is free, and every returned
  result is in a frame read, after its own request was written, from the current incarnation.
- A live worker always has a migrated database, the held lock and an open gateway; the lock goes last.
- Recovery of a coordinated restore ends with both databases on the same side or with a journal that blocks
  readiness, from every crash point and for every failure; applying one does too, outside two failures.
- Tokens are the words and marks of a text, each once; the counts of rendered injections are additive, so
  greedy packing is maximal and unique.

## Model

| member | source | states |
|---|---|---|
| SchemaFaults.AdvisorySchemaIssues | src/ledgermind_local/inference/structured_json_provider.py:866-1007 | for every value, schema, stack depth and limit: the run, or nothing where it exhausts the stack; with a limit of at least one the report is empty if and only if the value conforms to the schema as its JSON reads; every reported issue is a fault of the value under that code and path, and a report below its limit holds all of them; wherever the unlimited run returns, exactly its first `limit` issues |
| SchemaFaults.ReportIsFaults | src/ledgermind_local/inference/structured_json_provider.py:866-1007 | the same for every node, path and limit: what is reported is a fault, and below the limit every fault is reported |
| SchemaFaults.ReportedIsFault | src/ledgermind_local/inference/structured_json_provider.py:866-1007 | each reported issue has a derivation on the schema's JSON: an unresolved pointer, a count of satisfied alternatives other than one, a broken keyword of the node, or a fault of a child at the longer path |
| SchemaFaults.FaultIsReported | src/ledgermind_local/inference/structured_json_provider.py:866-1007 | a report below its limit misses no such fault, however long its derivation |
| SchemaReading.ShallowReads | src/ledgermind_local/inference/structured_json_provider.py:945-1006 | the issues of one layer are exactly the broken `const`, `enum`, `required`, `additionalProperties`, `minItems`, `maxItems`, `minLength` and `maxLength`, each with its own code and path |
| SchemaReading.TypeReads | src/ledgermind_local/inference/structured_json_provider.py:927-944 | the type check fails exactly for the five checked type names whose kind of value it is not |
| SchemaReading.NodeReads | src/ledgermind_local/inference/structured_json_provider.py:893-911 | a local `$ref` hides every keyword, a `oneOf` list every other one |
| SchemaReading.TargetLeads | src/ledgermind_local/inference/structured_json_provider.py:894-902 | resolution finds the last node of the chain of objects named by the unescaped parts, and nothing where there is no chain |
| SchemaReading.DecodeIsUnescaped | src/ledgermind_local/inference/structured_json_provider.py:897-897 | the two replacements undo the escapes of section 3 of RFC 6901 as a single pass does, for every string |
| SchemaReading.PropertyReads | src/ledgermind_local/inference/structured_json_provider.py:966-975 | the properties entered are those the schema declares and the value has, each with its own schema |
| SchemaChecker.CheckNode | src/ledgermind_local/inference/structured_json_provider.py:884-925 | the recursive checker with its loops is the run that the theorems below are about |
| SchemaChecker.CheckKeywords | src/ledgermind_local/inference/structured_json_provider.py:927-1007 | a node without `$ref` and `oneOf`: type first, then its own layer, then the children |
| SchemaChecker.ResolveReference | src/ledgermind_local/inference/structured_json_provider.py:894-909 | a pointer resolves to what following its decoded parts through objects reaches, and to nothing otherwise |
| SchemaChecker.CountMatches | src/ledgermind_local/inference/structured_json_provider.py:911-925 | trying each alternative with an inner limit of one counts the alternatives whose report is empty, and has no count if one exhausts the stack |
| SchemaChecker.AddShallow | src/ledgermind_local/inference/structured_json_provider.py:945-1006 | the non-recursive keywords contribute their issues in report order, truncated at the limit |
| SchemaChecker.AddLayer | src/ledgermind_local/inference/structured_json_provider.py:950-1006 | the checks of one layer of an object, array or string, appended in order and truncated |
| SchemaChecker.AddRequired | src/ledgermind_local/inference/structured_json_provider.py:951-955 | one issue per required key the object lacks, in the order of the schema |
| SchemaChecker.AddUnknown | src/ledgermind_local/inference/structured_json_provider.py:958-965 | one issue per undeclared key, in the order of the value |
| SchemaChecker.ExtendWithProperties | src/ledgermind_local/inference/structured_json_provider.py:966-978 | each present property is checked with the remaining room, in schema order, and the loop ends when the report is full |
| SchemaChecker.ExtendWithItems | src/ledgermind_local/inference/structured_json_provider.py:986-999 | the same for the items of an array |
| JsonValues.EqualKinds | src/ledgermind_local/inference/structured_json_provider.py:945-949 | comparison with `const` and `enum`: strings, null and infinities equal only themselves, arrays only arrays, objects only objects, and NaN nothing |
| JsonValues.EqualNumbers | src/ledgermind_local/inference/structured_json_provider.py:945-949 | booleans, integers and floats compare by value, a boolean as 0 or 1 |
| JsonValues.EqualsItself | src/ledgermind_local/inference/structured_json_provider.py:945-949 | every decoded value without NaN equals itself |
| SchemaTheory.CleanIffConforms | src/ledgermind_local/inference/structured_json_provider.py:866-1007 | with any limit but zero, a run that returns reports nothing if and only if the value conforms, where conformance is stated on the raw JSON of schema and value: truncation and the inner limit of one hide nothing |
| SchemaTheory.ReportDecides | src/ledgermind_local/inference/structured_json_provider.py:866-1007 | an empty report comes with a derivation that the value satisfies the schema, a nonempty one with a derivation that it violates it |
| SchemaMeaning.NotBoth | src/ledgermind_local/inference/structured_json_provider.py:866-1007 | no value both satisfies and violates a schema, so the two derivations are complementary |
| SchemaTheory.LimitsAgree | src/ledgermind_local/inference/structured_json_provider.py:866-1007 | where a more generous run returns, a tighter one returns exactly its first issues; the unlimited run is one of them |
| SchemaTheory.TakeExtend | src/ledgermind_local/inference/structured_json_provider.py:966-999 | truncating in two stages, the second to the remaining room, is truncating once |
| SchemaTheory.MatchesDecide | src/ledgermind_local/inference/structured_json_provider.py:911-925 | a count of one means exactly one satisfied alternative, any other count none or several |
| SchemaTheory.ShallowIffClean | src/ledgermind_local/inference/structured_json_provider.py:945-1006 | on a value of the right type the keywords of one layer are silent exactly when none of them is broken |
| SchemaTermination.ReturnsIffNoCycle | src/ledgermind_local/inference/structured_json_provider.py:894-1007 | for every limit: the checker returns on every value, given enough stack, if and only if no node it can reach unfolds to itself by `$ref` and `oneOf`; properties are entered only where the type admits objects, items only where it admits arrays |
| SchemaTermination.ArrayIgnoresProperties | src/ledgermind_local/inference/structured_json_provider.py:931-933 | an array-typed node returns on every value whatever its properties hold, since it never enters them |
| SchemaTermination.RankFromAcyclicity | src/ledgermind_local/inference/structured_json_provider.py:894-925 | without a cycle, counting the nodes a node unfolds to ranks all reachable nodes |
| SchemaTermination.RankedReturns | src/ledgermind_local/inference/structured_json_provider.py:894-1007 | over ranked nodes every run returns, by the pair of value and rank |
| SchemaTermination.Deeper | src/ledgermind_local/inference/structured_json_provider.py:866-1007 | more stack never changes a report |
| SchemaTermination.CycleHangs | src/ledgermind_local/inference/structured_json_provider.py:894-925 | on a cycle of `$ref` and `oneOf` no value and no stack depth gives a result |
| SchemaTermination.SomeValueHangs | src/ledgermind_local/inference/structured_json_provider.py:894-999 | along any path to such a cycle there is a value that leads the checker into it |
| StrictProfile.DecodeInvertsEncode | src/ledgermind_local/inference/structured_json_provider.py:894-909 | decoding a pointer part undoes the escaping of section 3 of RFC 6901 for every string |
| StrictProfile.AcceptedReferenceTarget | src/ledgermind_local/inference/strict.py:79-94 | a reference the profile accepts resolves to the definition of its decoded name, if there is one |
| StrictProfile.AcceptedSchemaResolves | src/ledgermind_local/inference/strict.py:61-170 | in an accepted schema whose untyped or union-typed nodes declare properties only together with the type object, and whose definition names decode to themselves, every reference reachable at any depth resolves |
| StrictProfile.ResolvesIffDecodedNamesExist | src/ledgermind_local/inference/strict.py:61-170 | without the condition on names: everything resolves if and only if each reachable reference's decoded name is defined |
| StrictProfile.NeverUnresolved | src/ledgermind_local/inference/structured_json_provider.py:894-909 | when all reachable references resolve, no run that returns reports an unresolved one |
| StrictProfileLimits.AcceptedYetCyclic | src/ledgermind_local/inference/strict.py:61-170 | the profile accepts a self-referring definition; on {"p": null} the checker exhausts every stack, on {} it returns at once |
| StrictProfileLimits.AcceptedYetUnresolvedName | src/ledgermind_local/inference/strict.py:61-170 | the profile accepts a definition name with an escape that the checker then cannot resolve |
| StrictProfileLimits.AcceptedYetUnvisited | src/ledgermind_local/inference/strict.py:61-170 | the profile does not visit properties of nodes without an object type, so a dangling reference can hide there |
| StrictProfileRules.NodeRulesExact | src/ledgermind_local/inference/strict.py:107-157 | the checks on a node that is no reference are exactly the rules read off its JSON: a known type, closed objects that require only what they declare, arrays with items, ordered bounds, nonempty enums, compilable patterns |
| StrictProfileRules.AcceptedIsLawful | src/ledgermind_local/inference/strict.py:61-170 | every part of an accepted schema and of its definitions, at any depth, uses the profile's keywords only and follows these rules, and a reference stands alone and names a definition |
| StrictProfileRules.ClosedIffDeclared | src/ledgermind_local/inference/strict.py:113-118 | an undeclared key breaks an accepted object schema, as the checker reads it, if and only if the schema has a `properties` keyword |
| Profiles.SameFingerprint | src/ledgermind_local/inference/profiles.py:184-226 | two fingerprints agree if and only if provider kind, endpoint, model, timeout, retries, both token limits, extra body, effective preference, token parameter, system-role flag and seed flag do |
| Profiles.FallbackTrades | src/ledgermind_local/inference/profiles.py:421-474 | recording a fallback withdraws the failed mode, adds the successful one, changes no other mode, and keeps identity and freshness |
| Profiles.FallbackRecords | src/ledgermind_local/inference/profiles.py:421-474 | it is recorded exactly for two different concrete modes other than the strict one, with the mode that worked and the error, leaving contract and verdict |
| ProfileStore.InferenceProfileStore.Upsert | src/ledgermind_local/inference/profile_store.py:130-198 | stores the profile; an observation made of a profile that differs in any field of the identity is withdrawn when the stored profile changes, one of the same identity and every other one stays |
| ProfileStore.InferenceProfileStore.InvalidateCapabilities | src/ledgermind_local/inference/profile_store.py:402-414 | withdraws probe status and result of an existing observation and nothing else |
| ProfileStore.InferenceProfileStore.UpsertCapabilities | src/ledgermind_local/inference/profile_store.py:247-400 | stores an observation of a known profile only |
| ProfileStore.InferenceProfileStore.RecordCapabilityFallback | src/ledgermind_local/inference/profile_store.py:416-435 | applies a successful fallback to the stored observation, if any |
| ProfileStore.InferenceProfileStore.RecordProbeError | src/ledgermind_local/inference/profile_store.py:437-448 | records the error without touching the observation |
| ProfileStore.InferenceProfileStore.Remove | src/ledgermind_local/inference/profile_store.py:450-455 | removes the profile and, by the foreign key, its observation |
| ProfileStore.InferenceProfileStore.Probe | src/ledgermind_local/inference/provider_probe.py:101-262 | the tables after a probe, and that it reports success exactly on a matching cached observation or a request answered with an object |
| ProfileStore.TryModes | src/ledgermind_local/inference/provider_probe.py:160-193 | the probe loop selects the first mode answered with an object, all earlier ones having failed, and none exactly when all failed, with the last error |
| CapabilityRuns.VouchedWasProbed | src/ledgermind_local/inference/profile_store.py:130-239 | over every run of upserts, removals, probes, fallbacks, invalidations and probe errors, a passed observation under a fingerprint was established by a probe passing under it, undisturbed since |
| CapabilityRuns.FreshLookupWasProbed | src/ledgermind_local/inference/profile_store.py:200-239 | the fresh observation handed out for a profile goes back to a passing probe of a profile that agrees with it in every field of the identity, with no withdrawal and no differing upsert since |
| CapabilityRuns.NoRevival | src/ledgermind_local/inference/profile_store.py:130-198 | once an upsert changed any field of the identity, a fresh observation of the old configuration was probed again after that upsert |
| CapabilityRuns.PassingProbeIsFresh | src/ledgermind_local/inference/provider_probe.py:101-262 | a passing probe under the profile's own preference is what a fresh lookup returns next |
| CapabilityRuns.PassingProbeSupports | src/ledgermind_local/inference/provider_probe.py:195-250 | a passing probe records an observation that is fresh under the probed identity and supports exactly the answered mode, an answered schema mode counting as strict transport too |
| CapabilityRuns.FailedProbeKeepsObservation | src/ledgermind_local/inference/provider_probe.py:244-250 | an outage changes at most the last error of an observation that passed under the same fingerprint |
| StructuredJson.GenerateJson | src/ledgermind_local/inference/structured_json_provider.py:265-544 | the error of every request that is never executed; at most two executions, in the selected and then the fallback mode, each after a budget check it passed; a strict request runs once, strictly, behind an open gate; the result is the last answer if it parses, except that a strict answer is refused exactly when it does not conform to the contract schema; every other error is that of the last answer or of the fallback that could not be sent; the store changes only to record a successful fallback |
| StructuredJson.ExecuteWithFallback | src/ledgermind_local/inference/structured_json_provider.py:432-520 | the executions made, the result or the exact error they give, the store afterwards, and that the provider is closed last |
| StructuredJson.ToResult | src/ledgermind_local/inference/structured_json_provider.py:794-855 | a result exactly for a decodable object within the size limit on which the checker returns, with its report against the contract schema; the error of every other answer |
| StructuredJson.PlanFacts | src/ledgermind_local/inference/structured_json_provider.py:285-332 | an admitted strict request is planned in strict mode and has a contract schema |
| StructuredJson.StrictNeverFallsBack | src/ledgermind_local/inference/structured_json_provider.py:573-601 | no strict request is retried in another mode |
| StructuredJson.StrictIffRequested | src/ledgermind_local/inference/structured_json_provider.py:299-316 | a planned request is strict, and so gated, exactly when it carries a requirement or names the mode |
| StructuredJson.PreferredStrictIsNotGated | src/ledgermind_local/inference/structured_json_provider.py:721-737 | a profile that merely prefers strict output is executed in strict mode without the gate |
| StructuredJson.CleanReportConforms | src/ledgermind_local/inference/structured_json_provider.py:540-544 | a report on the contract schema is empty if and only if the data conform to it |
| GenerationLaws.OutputBudget | src/ledgermind_local/inference/structured_json_provider.py:285-291 | the output budget is exceeded exactly when the request asks for more than the profile allows, before anything else |
| GenerationLaws.PlannedMode | src/ledgermind_local/inference/structured_json_provider.py:721-748 | the mode of an admitted request: strict for a requirement, then a legacy format's, then the one it names, then the profile's preference, then `json_object` where nothing is known of the provider |
| GenerationLaws.InvalidRequests | src/ledgermind_local/inference/structured_json_provider.py:603-642 | disagreeing modes, another response format and a requirement beside another mode are refused |
| GenerationLaws.PlannedContract | src/ledgermind_local/inference/structured_json_provider.py:603-642 | the contract is the caller's unless a legacy format brings a schema, and then it holds that schema |
| GenerationLaws.StrictIsValidated | src/ledgermind_local/inference/structured_json_provider.py:297-316 | a planned strict request has a contract schema within the strict profile that matches its digest, and a requirement of the right mode, version and digest about that schema |
| GenerationLaws.GateIff | src/ledgermind_local/inference/structured_json_provider.py:349-367 | the strict gate is open exactly for a passed observation of strict transport that carries no other fingerprint than this identity's in strict mode |
| GenerationLaws.FallbackIff | src/ledgermind_local/inference/structured_json_provider.py:434-470 | the fallback is sent exactly after a response error or an oversized, undecodable or non-object answer, when nobody asked for the mode, in the next weaker mode, if that can be built and fits |
| GenerationLaws.ParsesIff | src/ledgermind_local/inference/structured_json_provider.py:794-855 | an answer becomes a result exactly when it is an object within its size and the checker returns on it |
| GenerationLaws.ResultIs | src/ledgermind_local/inference/structured_json_provider.py:794-855 | the result is the answered object; its issues are faults of it against the contract schema, and fewer than sixteen are all of them |
| StrictGate.OpenGateWasProbed | src/ledgermind_local/inference/structured_json_provider.py:349-367 | over every run, an open strict gate on a fingerprinted observation goes back to a passing probe of a profile that agrees in every field of the identity with this one in strict mode, undisturbed since |
| StrictGate.OwnProbeKeepsGateShut | src/ledgermind_local/inference/structured_json_provider.py:349-367 | an observation probed under another preference of the profile never opens it |
| Downgrades.AutomaticPlan | src/ledgermind_local/inference/structured_json_provider.py:721-748 | for an automatic request, selection and fallback depend on the store and profile alone, and it is not strict |
| Downgrades.SelectionIs | src/ledgermind_local/inference/structured_json_provider.py:721-748 | with a fresh observation the selection is the most preferred supported mode |
| Downgrades.DowngradeStep | src/ledgermind_local/inference/profiles.py:421-474 | a downgrade keeps the observation fresh, strictly lowers the headroom, and makes the next selection the mode that worked, except that a failed `json_schema` leads to a supported `tool_call` |
| Downgrades.DowngradesBounded | src/ledgermind_local/inference/profile_store.py:416-435 | any run of the step function downgrades at most three times and leaves the observation fresh |
| Downgrades.AutomaticRequest | src/ledgermind_local/inference/structured_json_provider.py:265-544 | `generate_json` on an automatic request is one step of that function, a downgrade exactly when two executions ended in a result |
| Downgrades.AutomaticRequests | src/ledgermind_local/inference/structured_json_provider.py:265-544 | any run of automatic `generate_json` calls on one store, against any provider: the number of replies that took their fallback is the downgrade count of the run, at most three, and the observation stays fresh |
| Downgrades.ThreeAttained | src/ledgermind_local/inference/structured_json_provider.py:573-601 | the bound is attained: schema and tool support are given up one by one, down to plain prompting |
| EmbeddingKeys.EqualKeys | src/ledgermind_local/inference/embedding_provider.py:71-89 | with no separator in fingerprint, namespace and renderer, two keys agree if and only if fingerprint, namespace, renderer name, role and arbitrary content agree |
| EmbeddingKeys.SharedRendererName | src/ledgermind_local/inference/embedding_provider.py:80-88 | the only different renderers with one name are absent, empty and the literal "plain" |
| EmbeddingKeys.SeparatorConfuses | src/ledgermind_local/inference/embedding_provider.py:80-88 | with a separator in the namespace, different contents share a key, for every choice of the other parts |
| EmbeddingKeys.ParsedMaterial | src/ledgermind_local/inference/embedding_provider.py:71-89 | identity, role and content can be read back from the key material |
| Embedding.SliceOfTexts | src/ledgermind_local/inference/embedding_provider.py:560-577 | the running offset cuts the flattened batch into exactly the requests' own texts |
| Embedding.MergeIsPointwise | src/ledgermind_local/inference/embedding_provider.py:542-545 | popping the backend's answers into the gaps gives every position its own vector, whatever the hit pattern |
| Embedding.RolesEnforced | src/ledgermind_local/inference/embedding_provider.py:420-427 | a candidate query is admitted with the query role only, an identity passage with the passage role only |
| Embedding.SharedKey | src/ledgermind_local/inference/embedding_provider.py:464-477 | texts without explicit keys share a cache key exactly when text, role, renderer name and namespace agree, the purpose standing in for a missing namespace |
| Embedding.TextsNameThemselves | src/ledgermind_local/inference/embedding_provider.py:464-477 | keys without explicit names identify their texts |
| Embedding.FlatNames | src/ledgermind_local/inference/embedding_provider.py:464-477 | the key at each flattened position names the text at that position |
| EmbeddingService.EmbeddingVectorCache.Get | src/ledgermind_local/inference/embedding_provider.py:91-98 | returns what is stored and counts one hit or one miss |
| EmbeddingService.EmbeddingVectorCache.Put | src/ledgermind_local/inference/embedding_provider.py:100-111 | stores one vector and changes no other |
| EmbeddingService.EmbeddingVectorCache.Clear | src/ledgermind_local/inference/embedding_provider.py:113-117 | forgets all vectors and both counters |
| EmbeddingService.CheckRequests | src/ledgermind_local/inference/embedding_provider.py:409-447 | the first problem of the first faulty request, and none exactly when every request is valid and compatible with the first |
| EmbeddingService.CheckRequest | src/ledgermind_local/inference/embedding_provider.py:410-447 | the first problem of one request, in the order of the checks |
| EmbeddingService.CacheKey | src/ledgermind_local/inference/embedding_provider.py:464-472 | the key of a text, from its explicit name or itself |
| EmbeddingService.ProfileIdentity | src/ledgermind_local/inference/embedding_provider.py:617-645 | the digest of the identity, or why there is none |
| EmbeddingService.Admit | src/ledgermind_local/inference/embedding_provider.py:402-460 | every refusal before the key loop, in the order of the checks |
| EmbeddingService.MissingIndices | src/ledgermind_local/inference/embedding_provider.py:478-478 | exactly the positions without a cached vector, in order |
| EmbeddingService.FillIn | src/ledgermind_local/inference/embedding_provider.py:540-545 | the pop loop is the merge of cached vectors and answers |
| EmbeddingService.ValidatedVectors | src/ledgermind_local/inference/embedding_provider.py:583-608 | the vectors unchanged, or the error of the first empty, non-finite or wrongly sized one, or of differing sizes |
| EmbeddingService.Complete | src/ledgermind_local/inference/embedding_provider.py:501-546 | with any backend: it is asked for exactly the missing texts with the given role, and without one only if there is none and its signature refuses it; what it raises, a refused signature, a partial result and returned vectors each decide the outcome |
| EmbeddingService.CompletesPointwise | src/ledgermind_local/inference/embedding_provider.py:501-546 | with a faithful backend and agreeing cached vectors the outcome is the validated pointwise vectors |
| EmbeddingService.Slices | src/ledgermind_local/inference/embedding_provider.py:560-577 | each request's batch holds the vectors at its own texts' positions |
| EmbeddingService.SliceIsPointwise | src/ledgermind_local/inference/embedding_provider.py:560-577 | cutting the pointwise vectors of the batch gives each request's pointwise vectors |
| EmbeddingService.AfterKeeps | src/ledgermind_local/inference/embedding_provider.py:547-559 | storing the missing vectors overwrites nothing |
| EmbeddingService.AfterIsCoherent | src/ledgermind_local/inference/embedding_provider.py:547-559 | storing the encoder's vectors keeps a coherent cache coherent |
| EmbeddingService.EmbeddingProvider.LookUp | src/ledgermind_local/inference/embedding_provider.py:461-477 | one key and one lookup per text, in order, leaving the vectors unchanged and counting each lookup |
| EmbeddingService.EmbeddingProvider.Store | src/ledgermind_local/inference/embedding_provider.py:547-559 | the cache afterwards |
| EmbeddingService.EmbeddingProvider.EncodeAndStore | src/ledgermind_local/inference/embedding_provider.py:501-577 | with any backend, the result assembled from the completed vectors or the reason why there are none, and what the cache gains |
| EmbeddingService.EmbeddingProvider.EmbedMany | src/ledgermind_local/inference/embedding_provider.py:390-581 | with any backend and any cache: the outcome from admission, cancellation and what the backend replies to the missing texts with the first request's role; stored vectors are never overwritten, every error leaves the cache unchanged unless the renderer version is empty, and a success stores exactly the batch's keys; with honest names, a deterministic backend and a coherent cache the result equals the cache-free pointwise one, errors included, and the cache stays coherent |
| EmbeddingWitness.RefusedButStored | src/ledgermind_local/inference/embedding_provider.py:547-577 | with an empty renderer version a well-formed request to a well-behaved backend fails after its vector has been stored |
| EmbeddingBatches.BatchEqualsMembers | src/ledgermind_local/inference/embedding_provider.py:390-581 | uniform requests succeed together if and only if their texts fit, each succeeds alone and all give one dimension; then each gets what it gets alone |
| EmbeddingBatches.KnownDimension | src/ledgermind_local/inference/embedding_provider.py:583-608 | a backend with a known dimension gives one dimension to all successful members |
| EmbeddingBatches.HonestTogether | src/ledgermind_local/inference/embedding_provider.py:390-581 | what each member assumes alone suffices for the batch |
| TaskExecutor.CoreTaskExecutor.RunBounded | src/ledgermind_local/inference/core_task_executor.py:545-595 | the outcome of work that ends in time, is never started, or is given up while its thread may still fill the cache |
| TaskExecutor.CoreTaskExecutor.ExecuteEmbedTexts | src/ledgermind_local/inference/core_task_executor.py:346-417 | one embedding task gives its pointwise result, error cases included |
| TaskExecutor.CoreTaskExecutor.Execute | src/ledgermind_local/inference/core_task_executor.py:194-209 | dispatch by task kind only |
| TaskExecutor.CoreTaskExecutor.ExecuteEach | src/ledgermind_local/inference/core_task_executor.py:228-228 | individual execution on the shared cache gives each task its result alone |
| TaskExecutor.CoreTaskExecutor.ExecuteTogether | src/ledgermind_local/inference/core_task_executor.py:472-533 | agreeing tasks that succeed alone, fit and share a dimension get exactly their results alone; otherwise all fail with the status and code of the shared call |
| TaskExecutor.CoreTaskExecutor.CheckAgreement | src/ledgermind_local/inference/core_task_executor.py:440-470 | tasks agree exactly when identity, fingerprints, dimensions, privacy class, namespace, deadline, role and renderer of each are those of the first |
| TaskExecutor.CoreTaskExecutor.ExecuteBatch | src/ledgermind_local/inference/core_task_executor.py:211-228 | one result per task, in order, except exactly when a later profile does not resolve (then the handler itself raises); mixed or disagreeing batches reduce to individual execution; agreeing ones equal it |
| TaskExecutor.LateProfileLosesResults | src/ledgermind_local/inference/core_task_executor.py:534-543 | two tasks of which the second has no profile get no result, and in the other order they do |
| TaskExecutor.FixedDimensionFits | src/ledgermind_local/inference/core_task_executor.py:419-543 | with a fixed backend dimension, succeeding alone and fitting is enough |
| Framing.HeaderRoundTrip | src/ledgermind_local/core_gateway/framing.py:47-66 | the prefix reads back as the length written |
| Framing.BigEndian | src/ledgermind_local/core_gateway/framing.py:47-66 | prefixes are ordered byte by byte as the lengths they stand for, from zero to the largest four-byte length; the limit is 8 MiB |
| Framing.ParseFrame | src/ledgermind_local/core_gateway/framing.py:47-66 | a frame in front of any bytes reads back as its payload and leaves exactly those bytes |
| Framing.PrefixTruncated | src/ledgermind_local/core_gateway/framing.py:33-56 | every proper prefix of a frame is a truncation error |
| Framing.ParsedWasFramed | src/ledgermind_local/core_gateway/framing.py:47-56 | a payload is only read from bytes that begin with its frame |
| Framing.Stream.Read | src/ledgermind_local/core_gateway/framing.py:33-45 | any nonempty part of what was asked for, and nothing only at the end of the stream |
| Framing.ReadExact | src/ledgermind_local/core_gateway/framing.py:33-45 | exactly the requested bytes for every chunking, or the truncation error with the stream exhausted |
| Framing.ReadFrame | src/ledgermind_local/core_gateway/framing.py:47-56 | what parsing the bytes ahead yields, for every chunking |
| Framing.WriteFrame | src/ledgermind_local/core_gateway/framing.py:58-66 | appends the frame, or refuses a payload over 8 MiB and writes nothing |
| Framing.ReadExactBefore | src/ledgermind_local/core_gateway/supervisor.py:389-405 | agrees with the plain reader unless a deadline passes, and loses no byte either way |
| Framing.ReadFrameBefore | src/ledgermind_local/core_gateway/supervisor.py:376-387 | a timeout only when a deadline passed, and otherwise what parsing yields |
| Framing.RoundTrip | src/ledgermind_local/core_gateway/framing.py:33-66 | payloads written back to back are read back as exactly that sequence, for every chunking |
| Supervisor.CoreSupervisor.ExchangeOnce | src/ledgermind_local/core_gateway/supervisor.py:347-374 | what the bytes ahead say, or a timeout only if a deadline passes; a result comes from a frame with the request's id whose every byte was taken after that request was written; the stream is in sync again whenever a whole frame was read |
| Supervisor.AccountGrows | src/ledgermind_local/core_gateway/supervisor.py:347-374 | a request written in sync and one whole frame read after it keep the exchanges an account of every byte written and read, with each request written when exactly the earlier responses had been taken |
| Supervisor.CoreProcess.Send | src/ledgermind_local/core_gateway/supervisor.py:364-365 | writes the request frame and records how many response bytes had been taken by then |
| Supervisor.CoreProcess.Poll | src/ledgermind_local/core_gateway/supervisor.py:407-408 | a process may die between looks and never comes back |
| Supervisor.CoreSupervisor.Terminate | src/ledgermind_local/core_gateway/supervisor.py:410-427 | no process is left and the old one no longer runs |
| Supervisor.CoreSupervisor.Start | src/ledgermind_local/core_gateway/supervisor.py:136-158 | a running process is reused untouched; otherwise the outcome of spawn, handshake and version, success leaving a fresh handshaken process in sync and failure none |
| Supervisor.CoreSupervisor.SpawnAndShake | src/ledgermind_local/core_gateway/supervisor.py:140-158 | the same for a fresh process |
| Supervisor.CoreSupervisor.Request | src/ledgermind_local/core_gateway/supervisor.py:160-190 | a result answers this call's own request in the current incarnation; the reply is the one the bytes ahead call for, of a running process or of a fresh one behind its handshake, unless a deadline passes; a result, a structured remote error and an error without detail leave the process running, in sync and one exchange further; a timeout, a closed or failing stream, an invalid response and a foreign id end it; a failed start is reported as it failed and leaves none |
| Supervisor.CoreSupervisor.Forward | src/ledgermind_local/core_gateway/supervisor.py:170-190 | the same for the exchange on a started process: from size, write and decoded frame, which reply is given, and which replies keep or end the process |
| Supervisor.CoreSupervisor.TryRequest | src/ledgermind_local/core_gateway/supervisor.py:192-219 | a busy channel leaves supervisor, process and pipes untouched; a free one is exactly a request |
| Supervisor.CoreSupervisor.Close | src/ledgermind_local/core_gateway/supervisor.py:221-230 | terminates the process unless its shutdown answer decodes to a missing key, a wrong type or a rejection without detail, and then, in time, always leaves it running in sync |
| Supervisor.CoreSupervisor.Restart | src/ledgermind_local/core_gateway/supervisor.py:232-235 | the old process is gone, and the outcome is that of starting a fresh one |
| Supervisor.CoreSupervisor.Serve | src/ledgermind_local/core_gateway/supervisor.py:136-235 | any sequence of calls against any peer keeps: a running process is handshaken and in sync |
| ServiceLock.SoundStep | src/ledgermind_local/service_lock.py:28-107 | every step but a misjudged cleanup keeps each live owner the creator of the file at the path |
| ServiceLock.ExclusiveUnlessMisjudged | src/ledgermind_local/service_lock.py:28-107 | in every interleaving, two holders require a cleanup that removed a live owner's file |
| ServiceLock.NoCleanupStep | src/ledgermind_local/service_lock.py:28-42 | with cleanup off only its owner's release removes a lock file, so a failed acquire never does |
| ServiceLock.ExclusiveWithoutCleanup | src/ledgermind_local/service_lock.py:28-67 | with cleanup off at most one process holds the lock, in every interleaving of any number of processes |
| ServiceLock.ExclusiveWhenAtomic | src/ledgermind_local/service_lock.py:43-101 | with cleanup on there are never two live holders if creation includes the pid and read, liveness check and unlink are one step |
| ServiceLock.UnwrittenPidIsTakenForStale | src/ledgermind_local/service_lock.py:53-63 | without the first condition alone, a run with an uninterrupted cleanup gives two live holders |
| ServiceLock.InitialIsSafe | src/ledgermind_local/service_lock.py:25-42 | a leftover file of any content and no processes is a state all these results start from |
| ServiceLock.LateUnlinkRemovesNewOwner | src/ledgermind_local/service_lock.py:87-101 | without the second alone, a run with uninterrupted creation gives two live holders |
| Lifecycle.LocalRuntime.ShutdownWorkers | src/ledgermind_local/bootstrap.py:603-617 | no worker is reported exactly if every existing one stops in time, and then no thread is left alive |
| Lifecycle.LocalRuntime.RequestStop | src/ledgermind_local/bootstrap.py:475-480 | a stop request is remembered and changes nothing else |
| Lifecycle.LocalRuntime.WorkerExits | src/ledgermind_local/bootstrap.py:1732-1767 | a worker that ends by itself keeps everything a live worker relies on |
| Lifecycle.LocalRuntime.ShutdownOne | src/ledgermind_local/bootstrap.py:608-617 | a worker counts as stopped exactly if asking it did not raise and its live thread did not outlast the timeout |
| Lifecycle.LocalRuntime.StopWorkers | src/ledgermind_local/bootstrap.py:602-629 | complete exactly if every existing worker stops in time; handles are dropped only then |
| Lifecycle.LocalRuntime.JoinWorkers | src/ledgermind_local/bootstrap.py:602-617 | asking and joining the workers keeps everything a surviving one relies on |
| Lifecycle.LocalRuntime.GiveUpOwnership | src/ledgermind_local/bootstrap.py:638-654 | gateway, pid file and lock are given up in that order; exactly when it raises, and that the lock is then kept |
| Lifecycle.LocalRuntime.RemovePid | src/ledgermind_local/bootstrap.py:647-651 | ownership of the pid file ends whether or not its removal succeeds |
| Lifecycle.LocalRuntime.ReleaseLock | src/ledgermind_local/bootstrap.py:1145-1155 | the lock file goes with an acquired lock, and a failing release keeps everything |
| Lifecycle.LocalRuntime.Stop | src/ledgermind_local/bootstrap.py:597-657 | nothing to do, incomplete, raised or stopped, each exactly when; a worker that does not stop in time keeps lock, gateway, pid file, migrated state and the initialized flag; the lock disappears only when workers, Core and owned pid file are gone |
| Lifecycle.LocalRuntime.FinishStop | src/ledgermind_local/bootstrap.py:630-657 | what a stop without live workers leaves behind |
| Lifecycle.LocalRuntime.CleanupAfterFailedStart | src/ledgermind_local/bootstrap.py:1863-1903 | a failed start gives everything up, or with a live worker nothing |
| Lifecycle.LocalRuntime.StartCore | src/ledgermind_local/bootstrap.py:1272-1344 | a gateway remains exactly when there was one or the factory works, and Core is healthy; an unhealthy one is closed |
| Lifecycle.LocalRuntime.ResetForStart | src/ledgermind_local/bootstrap.py:398-419 | a new start begins without handles, errors or migrated state, and without touching the lock file |
| Lifecycle.LocalRuntime.AcquireAndMigrate | src/ledgermind_local/bootstrap.py:424-444 | lock, migrations and pid file in that order; it succeeds exactly when all of them do |
| Lifecycle.LocalRuntime.TakeLock | src/ledgermind_local/bootstrap.py:1132-1143 | the lock is taken exactly when it is available, and a failure leaves the file alone |
| Lifecycle.LocalRuntime.Publish | src/ledgermind_local/bootstrap.py:430-443 | the runtime counts as started only after migrations and its pid file |
| Lifecycle.LocalRuntime.StartCapture | src/ledgermind_local/bootstrap.py:387-449 | succeeds exactly when lock, migrations and pid file do; refuses over a live worker without changing anything; a failure gives up again whatever was acquired |
| Lifecycle.LocalRuntime.StartWorkers | src/ledgermind_local/bootstrap.py:1660-1677 | starts exactly the enabled, buildable workers whose Core is ready, each with the current gateway |
| Lifecycle.LocalRuntime.FinishStart | src/ledgermind_local/bootstrap.py:451-473 | succeeds exactly for an initialized runtime or a started one whose maintenance works; no worker starts after a stop request, also one that arrives before the check; otherwise exactly the configured ones do |
| Lifecycle.LocalRuntime.Launch | src/ledgermind_local/bootstrap.py:465-467 | workers start, and a stop request that arrives meanwhile keeps initialization incomplete |
| Lifecycle.LocalRuntime.Start | src/ledgermind_local/bootstrap.py:374-385 | succeeds exactly when capture and maintenance do; a failure of either half gives up lock, gateway, pid file and workers; an initialized runtime is left as it is |
| Lifecycle.Run | src/ledgermind_local/bootstrap.py:374-657 | any sequence of lifecycle calls in which stop does not overlap finish_start keeps: a live worker has migrations, held lock and the open gateway it was built with, and Core workers have one |
| Lifecycle.IncompleteStopThenRetry | src/ledgermind_local/bootstrap.py:597-657 | a stop left incomplete is finished by a later one, which releases the lock |
| Lifecycle.StartAfterIncompleteStop | src/ledgermind_local/bootstrap.py:374-385 | a start right after an incomplete stop of an initialized runtime reports success and starts nothing |
| Lifecycle.StopInsideFinishStart | src/ledgermind_local/cli.py:875-878 | a stop inside finish_start, possible once the bounded join has given up, leaves a live worker without the lock |
| CoordinatedRestore.CoordinatedRestoreService.Write | src/ledgermind_local/maintenance/coordinated_restore.py:698-711 | the journal is replaced whole or not at all, and a failure may follow either |
| CoordinatedRestore.CoordinatedRestoreService.Cleanup | src/ledgermind_local/maintenance/coordinated_restore.py:619-630 | the rollback snapshot goes first and the journal last |
| CoordinatedRestore.CoordinatedRestoreService.Prepare | src/ledgermind_local/maintenance/coordinated_restore.py:255-301 | a journal that exists is kept; a new one starts with both databases on the old side and a snapshot |
| CoordinatedRestore.CoordinatedRestoreService.BeginIfNeeded | src/ledgermind_local/maintenance/coordinated_restore.py:431-449 | no begin goes unrecorded: whatever fails or dies, the journal allows for it |
| CoordinatedRestore.CoordinatedRestoreService.Install | src/ledgermind_local/maintenance/coordinated_restore.py:344-355 | a committed journal is written only after both databases are new and Core has committed |
| CoordinatedRestore.CoordinatedRestoreService.UndoBoth | src/ledgermind_local/maintenance/coordinated_restore.py:567-586 | without a failure both databases are old; the rounds database goes back even if Core refuses |
| CoordinatedRestore.CoordinatedRestoreService.Compensate | src/ledgermind_local/maintenance/coordinated_restore.py:549-603 | from an open journal, compensation keeps the journal truthful at every crash point and for every failure |
| CoordinatedRestore.CoordinatedRestoreService.InstallOrUndo | src/ledgermind_local/maintenance/coordinated_restore.py:344-386 | the same for the rest of the restore, with the exact outcome of a failure after the commit was recorded |
| CoordinatedRestore.CoordinatedRestoreService.Proceed | src/ledgermind_local/maintenance/coordinated_restore.py:343-386 | the same from the begin on |
| CoordinatedRestore.CoordinatedRestoreService.Apply | src/ledgermind_local/maintenance/coordinated_restore.py:303-386 | success means both databases are new and the journal is gone; outside two named failures, no failure and no crash leaves databases on different sides without a journal that says so; what those two failures do, exactly |
| CoordinatedRestore.CoordinatedRestoreService.RollBack | src/ledgermind_local/maintenance/coordinated_restore.py:407-419 | when it returns, both databases are old and the journal is gone |
| CoordinatedRestore.CoordinatedRestoreService.Recover | src/ledgermind_local/maintenance/coordinated_restore.py:388-427 | from every state a crash can leave, and whatever fails: when it returns both databases are on the same side and the journal is gone, otherwise the journal is still there or they agree; it completes when everything works and Core has not committed |
| CoordinatedRestore.CoordinatedRestoreService.Run | src/ledgermind_local/maintenance/coordinated_restore.py:255-427 | any sequence of prepare, apply and recover, each failing or dying anywhere, keeps that |
| CoordinatedRestore.BeginIsForgotten | src/ledgermind_local/maintenance/coordinated_restore.py:364-373 | a lost answer to the begin, followed by a Core that does not stop, deletes the journal while Core alone is new |
| CoordinatedRestore.CommitIsTorn | src/ledgermind_local/maintenance/coordinated_restore.py:353-373 | a snapshot that cannot be deleted after the commit takes the rounds database back; with an unwritable mark, recovery then reports success over different sides |
| Reranker.Score | src/ledgermind_local/inference/retrieval_reranker.py:34-90 | succeeds exactly when the rows are a permutation of all document indices with finite scores, and returns those scores by index |
| Reranker.OrderIndependent | src/ledgermind_local/inference/retrieval_reranker.py:72-90 | success and scores do not depend on row order |
| Reranker.RankIsStableSort | src/ledgermind_local/inference/retrieval_reranker.py:123-125 | the ranking lists every index once, by descending score, ties in candidate order |
| Reranker.StableSortIsUnique | src/ledgermind_local/inference/retrieval_reranker.py:123-125 | only one order does |
| TokenPattern.FoundAre | src/ledgermind_local/inference/retrieval_reranker.py:16-16 | the matches are the maximal runs of word characters and the single characters that are neither word nor space, each once, in order; their number is the word starts plus those characters |
| TokenPattern.StartsAscend | src/ledgermind_local/inference/retrieval_reranker.py:16-16 | their positions ascend and are exactly the word starts and those characters |
| TokenPattern.NothingLost | src/ledgermind_local/inference/retrieval_reranker.py:16-16 | the matches together are the text without its space |
| TokenPattern.FindAllSplit | src/ledgermind_local/inference/retrieval_reranker.py:16-16 | token matches never cross a boundary before a non-word character |
| TokenPattern.TokensSplit | src/ledgermind_local/inference/retrieval_reranker.py:16-16 | so token counts add up over such a boundary |
| Injection.FacetListIsFacets | src/ledgermind_local/inference/retrieval_reranker.py:136-136 | the legend lists each facet of the items exactly once |
| Injection.FacetListAscends | src/ledgermind_local/inference/retrieval_reranker.py:136-136 | and in ascending order |
| Injection.RenderInjection | src/ledgermind_local/inference/retrieval_reranker.py:128-152 | building lines one by one gives the rendered text, and the error exactly for an incomplete legend |
| Injection.LineCost | src/ledgermind_local/inference/retrieval_reranker.py:142-149 | an item line costs the same whatever its index |
| Injection.RenderCost | src/ledgermind_local/inference/retrieval_reranker.py:128-152 | the words and marks of the rendered text are those of the heading, plus one legend line per distinct facet, plus the items' lines |
| Injection.OrderDoesNotMatter | src/ledgermind_local/inference/retrieval_reranker.py:128-152 | any two orders of the same items have the same token count |
| Injection.CostMonotone | src/ledgermind_local/inference/retrieval_reranker.py:155-166 | further items in between never make a selection with a later item cheaper |
| Packing.PackItems | src/ledgermind_local/inference/retrieval_reranker.py:155-166 | the exact error condition; a subsequence of the ranking that begins with the first min_k items, whose text has no more words and marks than the budget beyond them, and to which no skipped item could be appended; the reported count is that of its text |
| Packing.GreedyIsMaximal | src/ledgermind_local/inference/retrieval_reranker.py:161-164 | an item that did not fit when tried does not fit behind the final selection |
| Packing.GreedyIsUnique | src/ledgermind_local/inference/retrieval_reranker.py:155-166 | the selection is determined by that contract |
| Delivery.RankItems | src/ledgermind_local/inference/retrieval_reranker.py:113-125 | succeeds exactly for distinct ids and complete finite scores, and then permutes the items into the ranking |
| Delivery.DistinctSize | src/ledgermind_local/inference/retrieval_reranker.py:114-116 | comparing the number of ids with the number of different ids detects exactly the duplicates |
| Delivery.RankedPermutes | src/ledgermind_local/inference/retrieval_reranker.py:123-125 | ranking loses and duplicates nothing |
| Delivery.Deliver | src/ledgermind_local/api/context.py:208-279 | on the reranked path and on both fallback paths the delivered items are a duplicate-free part of Core's distinct candidates; which path is taken when; the reported count is that of the delivered text; an unpackable injection delivers Core's items intact |
| ExportCursor.ParseDecimal | src/ledgermind_local/api/knowledge.py:25-53 | a rendered number reads back |
| ExportCursor.CompositeRoundTrip | src/ledgermind_local/api/knowledge.py:25-53 | a composite cursor parses back to the space index and Core cursor it was built from |
| ExportCursor.StartRoundTrip | src/ledgermind_local/api/knowledge.py:25-53 | the start cursor of a space parses back to that start |
| ExportCursor.ParsedCoreIsCanonical | src/ledgermind_local/api/knowledge.py:25-53 | whatever text is parsed, the Core cursor handed on is canonical |
| ExportCursor.AcceptedCursor | src/ledgermind_local/api/knowledge.py:25-53 | a cursor is accepted exactly if it is `page`, a space number, `start` or a hexadecimal digest, and an offset, with no negative number and a start at zero |
| ExportCursor.NextCursorAdvances | src/ledgermind_local/api/knowledge.py:81-124 | the next cursor points further into the same space or to the start of the next |
| ExportCursor.ExportIsComplete | src/ledgermind_local/api/knowledge.py:81-124 | following next_cursor ends and yields every Core page of every matching space exactly once, in order |
| TokenBudget.RateIsLeast | src/ledgermind_local/inference/token_budget.py:56-69 | the rate is the least number of tokens at four ASCII characters or two other ones each |
| TokenBudget.TokenBudgetEstimator.EstimateText | src/ledgermind_local/inference/token_budget.py:56-69 | the plain estimate, or the cap for a text longer than the cap |
| TokenBudget.TokenBudgetEstimator.EstimateMessages | src/ledgermind_local/inference/token_budget.py:71-77 | the sum of the text estimates, saturated at the cap |
| TokenBudget.TokenBudgetEstimator.EstimateRequest | src/ledgermind_local/inference/token_budget.py:79-95 | the same over messages, contract and tool name |
| TokenBudget.TokenBudgetEstimator.EnsureWithin | src/ledgermind_local/inference/token_budget.py:97-106 | accepts exactly when the saturated estimate is within a valid allowance |
| TokenBudget.NeverUnderCounts | src/ledgermind_local/inference/token_budget.py:56-95 | below its cap the estimate never under-counts, and without overlong texts it is exact |
| TokenBudget.AcceptsWhenWithinQuarter | src/ledgermind_local/inference/token_budget.py:97-106 | with four times the allowance within the cap, the check is the unsaturated one |
| TokenBudget.AgreesIffWithinQuarter | src/ledgermind_local/inference/token_budget.py:97-106 | it agrees on all requests if and only if that condition holds |
| TokenBudget.DefaultCapIsExact | src/ledgermind_local/inference/profiles.py:324-324 | the condition holds for every valid profile under the default cap |

## Where the code and its documentation disagree

The model follows the code.

- `after_successful_fallback` is documented as making the next selection the mode that worked
  (`src/ledgermind_local/inference/profiles.py:421-474`). When `json_schema` fails while `tool_call` is
  recorded as supported, the next selection is `tool_call`; `DowngradeStep` states exactly this case.
- The comment on the batch error handler promises one terminal result per task
  (`src/ledgermind_local/inference/core_task_executor.py:534-543`). When the first profile resolves and a
  later one does not, pairing tasks with the profiles resolved so far raises; `ExecuteBatch` states that
  this is the only case.
- A frame error is a value error, so `request` reports it as an invalid response and never reaches the
  handler that would call it a crash (`src/ledgermind_local/core_gateway/supervisor.py:182-190`).
- `close` leaves the process running when the shutdown response makes decoding raise a key, type or
  assertion error (`src/ledgermind_local/core_gateway/supervisor.py:221-230`); `Close` states this of the
  bytes ahead.
- `start` after an incomplete stop returns at once, because initialization still counts as complete
  (`src/ledgermind_local/bootstrap.py:377-378`); see `StartAfterIncompleteStop`.
- `embed_many` has already filled the cache when it refuses a result with an empty renderer version
  (`src/ledgermind_local/inference/embedding_provider.py:547-577`); see `EmbedMany` and `RefusedButStored`.
- A restore is described as failure-safe (`src/ledgermind_local/maintenance/coordinated_restore.py:1-6`).
  Two failures break it: Core not stopping while its begin is in doubt deletes the journal
  (`BeginIsForgotten`), and an exception after the committed journal was written, while the rollback snapshot
  exists, takes the rounds database back alone (`CommitIsTorn`). `Apply` states both outcomes exactly and is
  safe in all other cases. A commit whose journal entry was lost to a crash always ends as inconsistent
  (`Recover`), although both databases are new.
- The strict profile demands `additionalProperties: false` of every object
  (`src/ledgermind_local/inference/strict.py:113-118`), but the checker looks for undeclared keys only beside a
  `properties` keyword, which the profile does not demand; `ClosedIffDeclared` states this exactly.
- The strict profile accepts self-referring definitions. On values that reach them the checker exhausts the
  stack, and the recursion error leaves `generate_json` without a fallback.

## Left out

- AdvisorySchemaIssues: counts one stack frame per schema node, and none for helpers or for comparing deeply nested constants.
- GenerateJson: does not model the forced provider route, cancellation, telemetry or a second capability store; the store is the profile store.
- ExportPage: does not model the display names of spaces, the limit of 100 characters on a cursor, nor digits outside ASCII, which `int` also accepts.
- EmbedMany: treats digests as injective and the backend as one function of its texts, so answers that change between calls are not modelled.
- ExecuteBatch: takes the equality with individual execution for a resolver that gives one profile per profile id during the batch; the code compares ids, model, endpoint and kind, but not the input limit that enters the fingerprint.
- Apply: takes the durable journal; a prepared restore object kept from earlier is not modelled, nor are the journal's paths and identifiers, the write-ahead files of the rounds database, or a Core that changes sides when it is restarted. Core is assumed to be on the old side after a successful rollback, on the new one after a successful commit, and never to undo a commit.
- Score: does not model a score that overflows on conversion to a float; scores are reals or non-finite.
- Deliver: takes items with all their fields present; a missing field is one more reason for the same Core fallback.
- Lifecycle.Run: does not model interrupts and other exceptions outside `Exception`, nor a restore journal whose recovery restarts Core.
- PersistentEmbeddingCache: its SQL tables, and SQL, SQLite and migrations in general; tables are maps.
- The isolated worker and local model of the reranker, HTTP clients and routing, authentication, command line, signal handling: input and output around the modelled logic.
- Sandbox construction, cryptography, model backends, health reports, telemetry and configuration models: single checks or operating-system calls.
- Splitting into lines, stripping and the word and space classes of regular expressions are taken as given by the host language.
- Wall-clock time and real threads: deadlines, cancellations and thread deaths are free choices of the environment.
