# Verification model of tunnelbana

A Dafny model of the parts of the tunnelbana authentication proxy whose promises span many
functions, requests or interleavings, with machine-checked proofs of those promises. Verify the
whole project with `dafny verify dfyconfig.toml`.

## What is modelled

| file | subject |
|---|---|
| `mdq_protocol.dfy`, `mdq_client.dfy` | Concurrent metadata lookups of the SAML backend: a state machine over its atomic sections, and the client object proved against it. |
| `state_seal.dfy`, `sessions.dfy` | The sealed state cookie, its lifetime over chains of requests, and key rotation. |
| `proxy.dfy`, `proxy_server.dfy`, `resume.dfy` | The request and response pipelines, in-place and as functions, and suspending and resuming them. |
| `internal.dfy`, `disco.dfy`, `browser.dfy`, `sealed_browser.dfy`, `discovery_example.dfy` | The data carrier and its JSON form, the discovery micro-service, runs of a browser that carries the cookie, plain and sealed, and an example of such runs. |
| `ttl_cache.dfy`, `python_runtime.dfy`, `op_cache.dfy` | Bounded resources: the TTL cache against a map that never prunes, the permits of embedded Python calls, the trust-bounded provider cache. |
| `framing.dfy`, `primary_identifier.dfy`, `pairwise_id.dfy`, `subject_id.dfy` | Length-prefixed text with its decoder, and the identifiers made of it. |
| `accr.dfy` | Negotiation of the level of assurance on both legs. |
| `attributes.dfy`, `scim_profile.dfy`, `values.dfy` | Attribute mapping in Rust and Python, subject composition, value filters and renaming. |
| `request_object.dfy` | Merging a signed request object into the authorization parameters. |
| `acs.dfy` | Signature acceptance and identity extraction at the assertion consumer service. |
| `wrappers.dfy` | Options, results and 64-bit words. |

## Conventions and assumptions

- Plugins are functions of the request context and the data; they return the context they leave
  behind even when they fail. Theorems that need more say so: `Installed` and `RoutingKept` (no other
  plugin writes the discovery namespace or the routing keys), `LaterBlind` (response services after a
  suspension do not look at the HTTP request), `KeepRequest` (no plugin replaces the request).
- Operations on the TTL cache are listed in the order in which they hold its lock.
- Clocks, nonces, network answers, parsed documents and what a Python call returns are parameters.
- `Ideal` states what is assumed of JSON, DEFLATE and the AEAD cipher; `CollisionFree` of the keyed hash.
- The MDQ client is a cache that may drop any entry at any time; only a successful fetch inserts.
- Hash and B-tree maps are Dafny maps. Loops over them pick keys in an arbitrary order, so what is
  proved holds for the actual order; where the order decides the outcome it is a parameter.
- In `framing.dfy` a string is a byte sequence, one character a byte, since the framings count bytes.
- Unsigned 64-bit arithmetic is explicit, with the saturating and wrapping operations of the source.

## What the proofs found

- `safe_fallback` is documented (`crates/tunnelbana-plugins/src/microservices/accr.rs:126-131`) as
  never inflating a level, and the plugin guide repeats it. That holds exactly for supported lists in which equal entries are adjacent:
  with `[MFA, PWD, MFA]`, a PWD answer to a request for MFA is returned as MFA. Configuration loading
  does not reject such a list (`AccrNegotiation.FallbackIsSafe`).
- The legacy pairwise framing confuses two requesters exactly when one entity id is the other followed
  by a hyphen and more (`PairwiseIds.LegacyLinks`).
- Composed subject ids are joined with a bare colon, so with two different attributes they do not tell
  all users apart (`SubjectComposition.ComposedIdsTellApart`).
- A minimum configured for a frontend and the request can disagree. With `[MFA, PWD]` supported, an MFA
  minimum and a request for PWD, the provider is asked for MFA; an MFA answer is then refused unless the
  fallback is allowed, and a PWD answer is accepted, below the minimum. The exact conditions are
  `AccrNegotiation.MinimumIsAnswerable` and `AccrNegotiation.MinimumIsKept`.
- The TTL cache reads its clock before it takes the lock (`crates/tunnelbana-core/src/cache.rs:85-86`,
  `:122-124`), so an operation that waits while another one sweeps can miss an entry that its own clock
  would still see as live (`TtlCaches.SweepOvertakesReader`). `TtlCaches.SameAnswers` says exactly when
  that happens. The replay gap shrinks by at most the lag, and by no less (`TtlCaches.ReplayGapUnderLag`,
  `TtlCaches.LagBoundIsTight`).
- A frontend with a pinned backend is documented to always route its flows there
  (`docs/src/configuration.md:306-307`, `docs/adr/0027-frontend-backend-pin.md`). A flow that goes through
  the discovery service is resumed without the pin (`crates/tunnelbana-core/src/proxy.rs:163`), so a later
  routing service or the default decides (`Browser.ResumedFlowForgetsPin`, `DiscoveryExample.PinIsLost`).
- A decrypted assertion with signature markup passes the signature phase also when the verifier reports no
  signature at all on its text; that the markup is found rests on the library
  (`AssertionConsumer.EveryAssertionIsCovered`). A validator that trusts only reported ids closes the gap
  (`AssertionConsumer.ConsumedAssertionsAreProved`).
- A flow that starts without a requester runs under the one a previous flow left in the same cookie
  (`Browser.RequesterIsLastNamed`). The frontends of the repository all name one
  (`saml2_frontend.rs:714-716`, `oidc_frontend.rs:283`,
  `federation_frontend.rs:534`, all in `crates/tunnelbana-plugins/src`), so this concerns other implementations of the frontend interface.
- A claim named `request` inside a request object is merged like any other, so the parameter removed
  from the outer request can reappear (`RequestObjects.RemovedNameReappears`,
  `RequestObjects.NestedRequestIsKept`).
- An insecure cookie keeps the host prefix when it is configured twice (`StateSeal.HostPrefixFollowsSecure`).

## Model

| member | source | states |
|---|---|---|
| MdqProtocol.AnswersComeFromOneDocument | crates/tunnelbana-plugins/src/saml2_backend.rs:269-319 | In every interleaving of any number of lookups, with resets, drops and fetch errors, a successful lookup returns an entity and scopes read from one and the same accepted document, on the hit path and on the fetch path. |
| MdqProtocol.CachesStayCoupled | crates/tunnelbana-plugins/src/saml2_backend.rs:269-331 | In every reachable state the scope cache is within capacity, and an entity the MDQ cache retains has the scopes of its own document unless a lookup that holds its lock is just promoting that very document. |
| MdqProtocol.LocksAreExclusive | crates/tunnelbana-plugins/src/saml2_backend.rs:321-331 | The weak lock table never gives one entity two live locks or two entities one lock, and an entity lock has at most one holder. |
| MdqProtocol.NoDeadlock | crates/tunnelbana-plugins/src/saml2_backend.rs:269-319 | While a lookup is unfinished some lookup can take a step, whatever the cache drops and the network refuses. |
| MdqProtocol.ProgressIsBounded | crates/tunnelbana-plugins/src/saml2_backend.rs:269-319 | In every interleaving each step of a lookup lowers the work left, so a stretch of a run without arrivals ends. |
| MdqProtocol.AllLookupsFinish | crates/tunnelbana-plugins/src/saml2_backend.rs:269-319 | From every reachable state all lookups that have begun can be run to their end: neither deadlock nor livelock. |
| MdqProtocol.StepKeepsInv | crates/tunnelbana-plugins/src/saml2_backend.rs:269-331 | Every atomic section keeps the whole inductive invariant. |
| MdqProtocol.StepKeepsCoupling | crates/tunnelbana-plugins/src/saml2_backend.rs:275-282 | Fetch, promotion, reset and arbitrary cache loss keep documents and scopes coupled. |
| MdqProtocol.StepKeepsHalfReset | crates/tunnelbana-plugins/src/saml2_backend.rs:275-282 | Between clearing the MDQ cache and clearing the scopes only documents still to be promoted are retained. |
| MdqProtocol.StepKeepsBound | crates/tunnelbana-plugins/src/saml2_backend.rs:209-216 | The reset rule makes room before every insertion, so capacity is never exceeded. |
| MdqProtocol.StepKeepsCopies | crates/tunnelbana-plugins/src/saml2_backend.rs:283-306 | The scopes a lookup copied before it asked the client still belong to the cached document when it is answered. |
| MdqProtocol.PromotionPersists | crates/tunnelbana-plugins/src/saml2_backend.rs:295-316 | Only its own promotion ends the promotion of a fetched document. |
| MdqProtocol.RunKeepsInv | crates/tunnelbana-plugins/src/saml2_backend.rs:269-331 | The invariant holds at every point of every run from the empty client. |
| MdqClient.ScopeAwareMdqClient.Get | crates/tunnelbana-plugins/src/saml2_backend.rs:269-319 | The lookup, as written, computes the answer and the caches of the specification of one uninterrupted lookup. |
| MdqClient.ScopeAwareMdqClient.ResetWhenFull | crates/tunnelbana-plugins/src/saml2_backend.rs:275-282 | Both caches are cleared together, and only when the scope cache has no room for the entity. |
| MdqClient.ScopeAwareMdqClient.LookupLock | crates/tunnelbana-plugins/src/saml2_backend.rs:321-331 | A lock that some lookup still holds is reused, a dead one replaced by a new one, and every other dead entry forgotten. |
| MdqClient.LookupAloneIsConsistent | crates/tunnelbana-plugins/src/saml2_backend.rs:269-319 | One lookup keeps the caches coupled and within capacity and answers from one document. |
| MdqClient.LookupAloneIsARun | crates/tunnelbana-plugins/src/saml2_backend.rs:269-319 | From any quiescent state the lookup as written is one of the runs of the protocol, with the same caches and answer. |
| TtlCaches.SameAnswers | crates/tunnelbana-core/src/cache.rs:60-150 | Whatever the clocks, a sequence of puts, conditional puts, gets and prunes in lock order is answered as by a map that never prunes exactly when no operation is overtaken: none looks for an entry that lives by its own clock and that a sweep has dropped. |
| TtlCaches.StepAnswers | crates/tunnelbana-core/src/cache.rs:68-77 | One operation is answered right exactly when it is not overtaken; an overtaken one has a clock before the expiry of its entry, which is no later than the latest sweep. |
| TtlCaches.InStepIsNeverOvertaken | crates/tunnelbana-core/src/cache.rs:60-150 | While no operation looks at entries with a clock behind that of an earlier sweep, none is overtaken. |
| TtlCaches.ReadsRightUnlessBehind | crates/tunnelbana-core/src/cache.rs:60-77 | In clocks alone: a read after a sweep is right for every content of the cache exactly when its clock is not behind the sweep. |
| TtlCaches.OrderedClocksAreInStep | crates/tunnelbana-core/src/cache.rs:60-150 | Clocks that are ordered as the locks are never fall behind a sweep. |
| TtlCaches.SweepOvertakesReader | crates/tunnelbana-core/src/cache.rs:105-150 | Since the clock is read before the lock is taken, a sweep at 100 lets a conditional put that read 99 replace an entry that expires at 100. |
| TtlCaches.ReplayGap | crates/tunnelbana-plugins/src/dpop.rs:39-46 | While no use lags behind an earlier sweep, in a store written only by conditional puts, two accepted uses of one key are at least the TTL of the first apart (the replay rule behind section 11.1 of RFC 9449), or the clock has reached its last value. |
| TtlCaches.ReplayGapUnderLag | crates/tunnelbana-plugins/src/dpop.rs:39-46 | Without ordered clocks: two successive accepted uses of a key are at least the TTL apart, less the time an operation may lag behind an earlier sweep. |
| TtlCaches.LagBoundIsTight | crates/tunnelbana-plugins/src/dpop.rs:39-46 | For every lag up to the TTL there is a run with two accepted uses exactly the TTL less the lag apart. |
| TtlCaches.NextSuccessIsLate | crates/tunnelbana-core/src/cache.rs:122-150 | While an entry is live no conditional put of its key succeeds, and one in between expired it first, whatever the clocks. |
| TtlCaches.StepRefines | crates/tunnelbana-core/src/cache.rs:105-115 | Unless an operation is overtaken the cache lacks afterwards only entries that expired by the latest sweep. |
| TtlCaches.SweepsAreBounded | crates/tunnelbana-core/src/cache.rs:85-115 | Over any run of a fresh cache the map stays below the watermark, the watermark is at most max(1024, twice the largest survivor count), and automatic sweeps scan at most two entries per insertion. |
| TtlCaches.RunAccounted | crates/tunnelbana-core/src/cache.rs:105-115 | The same from any cache within its account, by an amortised potential. |
| TtlCaches.TtlCache.Get | crates/tunnelbana-core/src/cache.rs:68-77 | A value is returned exactly while its expiry lies ahead. |
| TtlCaches.TtlCache.PutWithTtl | crates/tunnelbana-core/src/cache.rs:85-101 | The new state of an unconditional put, including the sweep it may trigger. |
| TtlCaches.TtlCache.PutDefault | crates/tunnelbana-core/src/cache.rs:80-82 | A put without a lifetime of its own uses the configured one. |
| TtlCaches.TtlCache.PutWhenAbsent | crates/tunnelbana-core/src/cache.rs:122-150 | The answer and the new state of a check-and-set. |
| TtlCaches.TtlCache.SweepWhenLarge | crates/tunnelbana-core/src/cache.rs:105-115 | Sweeps exactly at the watermark and resets it from the survivors. |
| TtlCaches.TtlCache.Prune | crates/tunnelbana-core/src/cache.rs:60-65 | An explicit prune keeps exactly the unexpired entries and the watermark. |
| StateSeal.SealThenUnseal | crates/tunnelbana-core/src/state.rs:305-445 | What sealing accepts, unsealing returns, data and issue time alike, under every sealer that knows the sealing key, exactly while it is fresh: the size caps of the two sides agree. |
| StateSeal.FormatsAgree | crates/tunnelbana-core/src/state.rs:336-390 | Legacy JSON and tagged deflate plaintexts are never taken for one another. |
| StateSeal.AcceptedIsWithinLifetime | crates/tunnelbana-core/src/state.rs:368-389 | Whatever a cookie holds, the state it yields is empty or inside its absolute lifetime, also with an issue time in the accepted future skew. |
| StateSeal.MaxAgeIsAbsolute | crates/tunnelbana-core/src/state.rs:397-445 | The advertised Max-Age (section 5.2.2 of RFC 6265) never keeps an unexpired cookie past issue time plus TTL, and reaches that moment exactly under the stated condition. |
| StateSeal.LifetimeIsAbsolute | crates/tunnelbana-core/src/state.rs:305-445 | Over any chain of unseal, change and reseal legs, with key rotation and the clock read at both ends of a leg, the issue time is that of the first sealing, so no leg accepts the flow at or after that time plus the TTL. |
| StateSeal.FoundStatesAreATrace | crates/tunnelbana-core/src/state.rs:305-445 | Every state a run unseals is empty, or exactly what the leg before it sealed and still within its lifetime. |
| StateSeal.NextLegKeepsIssueTime | crates/tunnelbana-core/src/state.rs:393-445 | An accepted leg continues the issue time and the sealed data of the leg before it. |
| StateSeal.SessionBegins | crates/tunnelbana-core/src/state.rs:305-445 | Every leg belongs to a session that began at the last leg without a state. |
| StateSeal.RotationKeepsCookies | crates/tunnelbana-core/src/state.rs:272-279 | Cookies of a previous secret stay usable, and new ones are sealed with the new secret only. |
| StateSeal.HostPrefixFollowsSecure | crates/tunnelbana-core/src/state.rs:283-293 | The cookie name has the host prefix exactly when the cookie is secure, or the configured name carries the prefix twice. |
| StateSeal.StateSealer.RecomputeName | crates/tunnelbana-core/src/state.rs:283-293 | The effective name for the configured one and the secure flag. |
| StateSeal.StateSealer.WithSecure | crates/tunnelbana-core/src/state.rs:250-254 | Changing the flag renames the cookie from the configured name, not from the current one. |
| StateSeal.StateSealer.WithTtlSeconds | crates/tunnelbana-core/src/state.rs:264-267 | Without a lifetime, or with one of zero, every issue time is fresh at every clock; with a positive one exactly those less than that long ago and at most the skew ahead. The sealer stays usable. |
| StateSeal.StateSealer.WithPreviousSecrets | crates/tunnelbana-core/src/state.rs:272-279 | Appends the keys of the non-empty secrets in order and keeps the sealing key first. |
| Internal.DecodeInvertsEncode | crates/tunnelbana-core/src/internal.rs:12-70 | Every carrier is recovered from its JSON form, with absent options and empty lists left out. |
| Proxies.Position | crates/tunnelbana-core/src/proxy.rs:126-167 | The index of the first service of a name, or the length of the list. |
| ProxyServers.FinishRequestInPlace | crates/tunnelbana-core/src/proxy.rs:207-230 | The request loop with its early exit equals the recursive chain, and then starts the chosen backend. |
| ProxyServers.FinishResponseInPlace | crates/tunnelbana-core/src/proxy.rs:269-297 | The response loop equals the chain: first interruption wins, a full pass is rendered. |
| ProxyServers.Run | crates/tunnelbana-core/src/proxy.rs:84-171 | One request from the unsealed to the sealed state, with the three dispatchers, the renderer and the error path composed in place. |
| Resume.ResumeEqualsUninterrupted | crates/tunnelbana-core/src/proxy.rs:126-167 | Suspending the response chain at any service and resuming through its endpoint gives the result and state of one uninterrupted pass. |
| Resume.LegsVisitEachOnce | crates/tunnelbana-core/src/proxy.rs:269-297 | The two legs together apply every service exactly once, in configured order. |
| Resume.ManySuspensions | crates/tunnelbana-core/src/proxy.rs:126-167 | The same for any number of suspensions of one flow. |
| Resume.VisitedInOrder | crates/tunnelbana-core/src/proxy.rs:269-297 | A pass applies services in configured order without skipping or repeating any. |
| Resume.ResumeFindsOwner | crates/tunnelbana-core/src/proxy.rs:126-137 | Resuming finds its own service exactly when no earlier one shares its name. |
| Resume.NamesAreUnique | crates/tunnelbana-core/src/config.rs:345-353 | The configuration check accepts exactly the lists in which every service owns its name. |
| Resume.StepUpSuspends | crates/tunnelbana-plugins/src/microservices/stepup.rs:312-470 | The step-up service, with its own namespace, that of the delegated SAML login, and a completion that depends on the answer of the callback, suspends transparently, so the theorems apply to it. |
| Resume.RefusedStepUpIsConsumed | crates/tunnelbana-plugins/src/microservices/stepup.rs:448-465 | A verified answer that does not satisfy the linked account ends the flow: no later callback finds the snapshot. |
| Resume.ChainSplits | crates/tunnelbana-core/src/proxy.rs:269-297 | A pass over a concatenated list is the pass over its first part followed by that over the second. |
| Disco.ReturnResumesOnlyAllowed | crates/tunnelbana-plugins/src/microservices/disco.rs:210-279 | The discovery return resumes exactly when a well-formed snapshot is stored and the issuer is well-formed and allowed for the requester; resuming consumes the snapshot, a rejected issuer keeps it, and no other namespace changes. |
| Disco.ParseInvertsSnapshot | crates/tunnelbana-plugins/src/microservices/disco.rs:179-201 | A stored snapshot parses back to exactly the suspended frontend and request. |
| Browser.ResumeRestoresSuspended | crates/tunnelbana-plugins/src/microservices/disco.rs:179-279 | Over every run of a cookie-following browser a resumption restores the frontend and request suspended last, under an issuer its requester may use. |
| Browser.ResumedAtMostOnce | crates/tunnelbana-plugins/src/microservices/disco.rs:210-279 | Between two resumptions the run always suspends a flow anew. |
| Browser.CookieHoldsPending | crates/tunnelbana-plugins/src/microservices/disco.rs:179-279 | A snapshot in the cookie is that of the flow suspended last and not resumed since. |
| Browser.LegSnapshot | crates/tunnelbana-core/src/proxy.rs:84-171 | One request leaves in the cookie the snapshot it took, none, or the one before, for every kind of endpoint and for errors. |
| Browser.RejectionKeepsSnapshot | crates/tunnelbana-plugins/src/microservices/disco.rs:210-279 | After a rejected return the snapshot is still there, so the user can choose again. |
| Browser.ResumptionHasOrigin | crates/tunnelbana-plugins/src/microservices/disco.rs:179-279 | A resumption restores what one earlier leg suspended, and every leg in between presented the newest state. |
| Browser.SealedStateIsAllThereIs | crates/tunnelbana-core/src/state.rs:305-445 | The next request works on exactly the state sealed last, or on an empty session. |
| SealedBrowser.SealedRunIsPlain | crates/tunnelbana-core/src/proxy.rs:84-114 | Every run over sealed cookies, with clocks, TTL, key rotation and failing seals, is a plain run: each leg works on exactly what the plain run presents. |
| SealedBrowser.PlainRunExists | crates/tunnelbana-core/src/proxy.rs:84-114 | Such a plain run exists for every run over sealed cookies. |
| SealedBrowser.ResumedWithinLifetime | crates/tunnelbana-plugins/src/microservices/disco.rs:210-279 | A discovery return resumes a flow suspended in the same session, less than the TTL after that session was first sealed, however often the cookie was resealed. |
| DiscoveryExample.SealedReturnResumes | crates/tunnelbana-plugins/src/microservices/disco.rs:179-279 | Such a run exists: a start sealed at 0 and a return unsealed at 60 within 1800 seconds. |
| Browser.ResumedFlowForgetsPin | crates/tunnelbana-core/src/proxy.rs:126-230 | Over every run, the flow a discovery return resumes starts a given backend exactly when the later services choose it, or choose none and it is the default, whatever the frontend had pinned. |
| DiscoveryExample.PinIsLost | crates/tunnelbana-core/src/proxy.rs:126-230 | A run that suspends and resumes twice: each time the pinned backend is asked first and the default one after the return. |
| Browser.RecordedFlow | crates/tunnelbana-core/src/proxy.rs:173-201 | Recording a flow is readable back; the requester read is the one of this flow exactly when it named one or none was stored. |
| Browser.CookieCarriesFlow | crates/tunnelbana-core/src/proxy.rs:137-163 | The cookie names exactly the frontend of the flow started or resumed last and the requester it runs under, for flows that name a requester and for those that do not. |
| Browser.RequesterIsLastNamed | crates/tunnelbana-core/src/proxy.rs:173-201 | Over every run, a flow is under a requester exactly when some flow named it and neither was another one named nor the cookie lost since. |
| Browser.AnswersGoHome | crates/tunnelbana-core/src/proxy.rs:246-261 | A backend answer runs the response services under the requester of that flow, if it has one, and is rendered by its frontend. |
| PythonCalls.PermitsAreConserved | crates/tunnelbana-python/src/lib.rs:384-484 | In every interleaving of admissions, deadlines and detached completions, free permits plus those held by Python calls equal the configured maximum. |
| PythonCalls.DetachedKeepsPermit | crates/tunnelbana-python/src/lib.rs:420-470 | A timed-out call keeps its permit until Python itself is done. |
| PythonCalls.StepConserves | crates/tunnelbana-python/src/lib.rs:384-484 | No single step creates or loses a permit. |
| PythonCalls.DecorationsAreProtected | crates/tunnelbana-python/src/lib.rs:712-732 | Across any sequence of Python services a first-writer decoration once set never changes, protocol-validated ones are never touched, and a selected backend is a configured one. |
| PythonCalls.FailureKeepsEarlierCommits | crates/tunnelbana-python/src/lib.rs:384-484 | A sequence of calls fails exactly when some call, after all before it committed, does not; the context is then exactly the one those left. |
| PythonCalls.ExecuteInPlace | crates/tunnelbana-python/src/lib.rs:384-484 | The call in place: two assignments after all checks, none of them on a failure. |
| PythonCalls.ValidateReserved | crates/tunnelbana-python/src/lib.rs:712-721 | Accepts exactly the outputs that keep every first-writer decoration already set. |
| PythonCalls.ValidateReadOnlyDecorations | crates/tunnelbana-python/src/lib.rs:725-732 | Accepts exactly the outputs that neither create, change nor remove a protocol-validated decoration. |
| PrimaryIdentifiers.IdentifierDecodes | crates/tunnelbana-plugins/src/microservices/primary_identifier.rs:188-198 | A decoder recovers the whole value list from its identifier, for all byte strings, digits and colons included. |
| PrimaryIdentifiers.IdentifiersAreUnique | crates/tunnelbana-plugins/src/microservices/primary_identifier.rs:188-198 | Two value lists have the same identifier only when they are the same list. |
| PrimaryIdentifiers.Construct | crates/tunnelbana-plugins/src/microservices/primary_identifier.rs:151-201 | The labelled search returns the identifier of the first usable candidate, which decodes to exactly its components, and none when no candidate is usable. |
| PrimaryIdentifiers.UsableExactlyWhenComplete | crates/tunnelbana-plugins/src/microservices/primary_identifier.rs:151-187 | A candidate is usable exactly when it names something and everything it names is present. |
| PrimaryIdentifiers.NamedValuesAreTheValues | crates/tunnelbana-plugins/src/microservices/primary_identifier.rs:154-174 | The components are the values of the named attributes, none invented and none missing, one for one and in order without the subject-id pseudo-attribute. |
| PrimaryIdentifiers.EffectiveFor | crates/tunnelbana-plugins/src/microservices/primary_identifier.rs:114-149 | Field by field the requester override wins over the issuer override, which wins over the configuration; either one can ignore the service. |
| PrimaryIdentifiers.ProcessResponse | crates/tunnelbana-plugins/src/microservices/primary_identifier.rs:210-254 | What is written where, what is cleared, and when the response passes through or is redirected with both entity ids. |
| Framing.ChunksReadBack | crates/tunnelbana-plugins/src/microservices/primary_identifier.rs:192-197 | Any sequence of length-prefixed values is read back, whatever bytes they hold. |
| Framing.NumberReadsBack | crates/tunnelbana-plugins/src/microservices/primary_identifier.rs:192-197 | A printed decimal length ends at the colon that follows it. |
| PairwiseIds.V1IsInjective | crates/tunnelbana-plugins/src/microservices/pairwiseid.rs:117-130 | The v1 input determines requester and subject. |
| PairwiseIds.LegacyCollides | crates/tunnelbana-plugins/src/microservices/pairwiseid.rs:117-121 | Exactly which pairs the legacy concatenation confuses. |
| PairwiseIds.V1NeverLinks | crates/tunnelbana-plugins/src/microservices/pairwiseid.rs:117-132 | With a collision-free keyed hash a v1 identifier belongs to one requester and one subject. |
| PairwiseIds.LegacyLinks | crates/tunnelbana-plugins/src/microservices/pairwiseid.rs:117-132 | Two requesters can share a legacy identifier exactly when one entity id is the other followed by a hyphen and more. |
| PairwiseIds.ScopeIsKept | crates/tunnelbana-plugins/src/microservices/pairwiseid.rs:113-132 | The pairwise identifier has the scope of the subject id it hides. |
| PairwiseIds.PairwiseIdsAgree | crates/tunnelbana-plugins/src/microservices/pairwiseid.rs:131-132 | Two identifiers agree exactly when the hashed inputs and the scopes do. |
| PairwiseIds.PrintHex | crates/tunnelbana-plugins/src/microservices/pairwiseid.rs:87-93 | The appending loop prints two lower-case digits per byte. |
| PairwiseIds.HexIsInjective | crates/tunnelbana-plugins/src/microservices/pairwiseid.rs:87-93 | Different digests print differently. |
| PairwiseIds.WrittenIdsSeparateLogins | crates/tunnelbana-plugins/src/microservices/pairwiseid.rs:101-136 | The attribute v1 writes tells any two logins apart that differ in requester or subject; an absent requester counts as the empty name. |
| SubjectIds.ScopedSubjectsAreUnique | crates/tunnelbana-plugins/src/saml2_backend.rs:1957-1959 | The issuer-scoped subject determines issuer and subject. |
| SubjectIds.PersistentNameIdsAreSeparated | crates/tunnelbana-plugins/src/saml2_backend.rs:1922-1952 | Raw persistent NameIDs of a dynamic backend are never shared by two issuers. |
| SubjectIds.IssuersAreSeparatedOnlyByScoping | crates/tunnelbana-plugins/src/saml2_backend.rs:1922-1952 | Subjects of different issuers stay apart for all logins exactly when IdPs are dynamic and issuer scoping is on. |
| AccrNegotiation.Invert | crates/tunnelbana-plugins/src/microservices/accr.rs:98-115 | The reverse map is the exact inverse, and building it fails exactly for maps that are not one-to-one, in any iteration order. |
| AccrNegotiation.Build | crates/tunnelbana-plugins/src/microservices/accr.rs:80-124 | A service is built exactly for a non-empty supported list that contains every minimum and a one-to-one rewrite map. |
| AccrNegotiation.ReverseUndoesRewrite | crates/tunnelbana-plugins/src/microservices/accr.rs:98-115 | A value survives the trip to the upstream vocabulary and back exactly when it is mapped or is no rewritten value. |
| AccrNegotiation.SupportedValuesSurvive | crates/tunnelbana-plugins/src/microservices/accr.rs:98-115 | Every supported value survives exactly when no unmapped supported value is a rewriting of another. |
| AccrNegotiation.FallbackIsStrongest | crates/tunnelbana-plugins/src/microservices/accr.rs:132-138 | No requested level that the assertion justifies is stronger than the fallback. |
| AccrNegotiation.FallbackIsSafe | crates/tunnelbana-plugins/src/microservices/accr.rs:126-138 | For all requests the fallback is never stronger than what was asserted, exactly when equal entries of the supported list are adjacent; a scattered duplicate inflates. |
| AccrNegotiation.ProcessRequest | crates/tunnelbana-plugins/src/microservices/accr.rs:162-237 | Refuses exactly the requests without a supported level and leaves the context alone then; otherwise decorations and stored request are as specified. |
| AccrNegotiation.MinimumIsAsked | crates/tunnelbana-plugins/src/microservices/accr.rs:199-214 | With a configured minimum exactly the supported levels at least that strong are asked for, without the rewrite. |
| AccrNegotiation.ProcessResponse | crates/tunnelbana-plugins/src/microservices/accr.rs:239-311 | Only the authentication class changes, the flow record is consumed on success, and a refusal changes nothing. |
| AccrNegotiation.Normalize | crates/tunnelbana-plugins/src/microservices/accr.rs:255-307 | The branches as written give the specified verdict. |
| AccrNegotiation.AcceptedLevels | crates/tunnelbana-plugins/src/microservices/accr.rs:255-307 | What a requester is told is a level it asked for: the reverse-rewritten upstream value, or the strongest requested level no stronger than it. |
| AccrNegotiation.RefusedLevels | crates/tunnelbana-plugins/src/microservices/accr.rs:280-307 | An answer is refused exactly when it is missing or no requested level is justified by it, for every supported list. |
| AccrNegotiation.AtOrBelowIsNoStronger | crates/tunnelbana-plugins/src/microservices/accr.rs:126-138 | Where the fallback searches is exactly where levels are no stronger, in lists without scattered entries. |
| AccrNegotiation.RequestAndAnswerAgree | crates/tunnelbana-plugins/src/microservices/accr.rs:162-311 | Both legs together, for a frontend without a minimum and an unclaimed target: whichever forwarded level the provider answers, the requester gets a level of its own request whose rewriting was answered. |
| AccrNegotiation.AskedLevelsAreAccepted | crates/tunnelbana-plugins/src/microservices/accr.rs:162-311 | Whatever was asked for, every asked level is accepted as an answer exactly when each is justified to the requester. |
| AccrNegotiation.MinimumIsAnswerable | crates/tunnelbana-plugins/src/microservices/accr.rs:199-214 | With a minimum the two legs agree exactly when every level from the strongest down to it is justified by the request. |
| AccrNegotiation.MinimumIsKept | crates/tunnelbana-plugins/src/microservices/accr.rs:239-311 | The response leg does not check the minimum: it is kept for every answer exactly when something was requested and no supported requested level is weaker. |
| AccrNegotiation.MinimumAndRequestDisagree | crates/tunnelbana-plugins/src/microservices/accr.rs:199-214 | One flow that shows both: an MFA minimum and a request for a password refuse the MFA answer and accept the password. |
| AccrNegotiation.WhatIsAsked | crates/tunnelbana-plugins/src/microservices/accr.rs:216-226 | What the provider is asked for: what an earlier writer fixed, the range down to the minimum, or the rewritten request. |
| AttributeMapping.MapToInternal | crates/tunnelbana-core/src/attributes.rs:168-201 | The nested loops give every attribute the deduplicated values of all its keys in order, for any iteration order of the map. |
| AttributeMapping.MapFromInternal | crates/tunnelbana-core/src/attributes.rs:207-226 | The emitting loop, with later attributes overwriting an equal canonical name. |
| AttributeMapping.RoundTripsExactlyWhenSeparated | crates/tunnelbana-core/src/attributes.rs:168-226 | Mapping out and back is the identity on emitted attributes with non-empty duplicate-free values exactly when no canonical name is an inbound key of another attribute. |
| AttributeMapping.ThereAndBack | crates/tunnelbana-core/src/attributes.rs:168-226 | For separated names and arbitrary values: unmapped attributes go, duplicates and empty lists too, all else returns. |
| AttributeMapping.EmittedUnder | crates/tunnelbana-core/src/attributes.rs:207-226 | With separated names every emitted attribute is found under its canonical name and nothing else is emitted. |
| AttributeMapping.ExternalNames | crates/tunnelbana-core/src/attributes.rs:140-160 | The collected names are exactly those an inbound attribute can contribute through, and no other inbound name ever matters. |
| Deduplication.DedupIsDuplicateFree | crates/tunnelbana-core/src/attributes.rs:186-194 | The push-if-absent loop yields no duplicates and changes only lists that have some. |
| ScimProfiles.MappedProfile | python/tunnelbana_scimapi/scim_attributes.py:247-259 | The Python mapping raises exactly when a candidate key holds something other than strings, and otherwise equals the Rust mapping of the SAML profile. |
| ScimProfiles.DedupKeysFirst | python/tunnelbana_scimapi/scim_attributes.py:146-173 | Deduplicating the keys first changes no result. |
| ScimProfiles.ListsAreWellTyped | python/tunnelbana_scimapi/scim_attributes.py:74-80 | String lists are always accepted and taken over unchanged. |
| SubjectComposition.Compose | crates/tunnelbana-core/src/attributes.rs:230-240 | The joining loop, with its failure on the first missing attribute. |
| SubjectComposition.ComposedIdsTellApart | crates/tunnelbana-core/src/attributes.rs:230-240 | Values may contain the separator, so composed ids tell all users apart exactly when one attribute is composed. |
| RequestObjects.ReadRequest | crates/tunnelbana-plugins/src/federation_frontend.rs:461-520 | Accepts exactly the unambiguous requests of a known client whose request object verifies and contradicts nothing; every non-resource name then occurs once, outer parameters are an ordered prefix, and both client ids agree (section 5 of RFC 9101). |
| RequestObjects.UnpackRequestObject | crates/tunnelbana-plugins/src/federation_frontend.rs:398-447 | When the merge succeeds, and that every string claim is then present and agreed on by every parameter of its name. |
| RequestObjects.Merge | crates/tunnelbana-plugins/src/federation_frontend.rs:428-445 | The merging loop fails exactly on a claim that contradicts an outer parameter, in any order of the claims. |
| RequestObjects.MergeContents | crates/tunnelbana-plugins/src/federation_frontend.rs:428-445 | What a merge contains does not depend on the order of the claims. |
| RequestObjects.RemovedNameReappears | crates/tunnelbana-plugins/src/federation_frontend.rs:398-445 | After a merge a parameter named `request` is present exactly when the signed claims hold a string of that name. |
| RequestObjects.NestedRequestIsKept | crates/tunnelbana-plugins/src/federation_frontend.rs:398-445 | An admissible request object with such a claim, and the merged parameters that keep it. |
| RequestObjects.FirstDuplicate | crates/tunnelbana-plugins/src/federation_frontend.rs:465-475 | The scan finds a repeated name exactly when there is one. |
| RequestObjects.MergeKeepsDistinct | crates/tunnelbana-plugins/src/federation_frontend.rs:428-445 | Merging introduces no repeated name. |
| AssertionConsumer.VerifySignatures | crates/tunnelbana-plugins/src/saml2_backend.rs:889-1024 | The signature phase accepts exactly the acceptable messages and reports exactly the ids that were proved. |
| AssertionConsumer.EveryAssertionIsCovered | crates/tunnelbana-plugins/src/saml2_backend.rs:940-1024 | Of an accepted message every consumable assertion is covered by a verified binding signature, a verified reference to the Response id, or a successful verification of its own XML, exactly when the envelope is verified or the verifier finds a signature in each decrypted assertion. |
| AssertionConsumer.UnenvelopedAreSigned | crates/tunnelbana-plugins/src/saml2_backend.rs:965-1024 | Without a verified envelope every assertion of an accepted message carries signature markup. |
| AssertionConsumer.ExtendVerifiedIds | crates/tunnelbana-plugins/src/saml2_backend.rs:1850-1883 | Fails exactly on a signature that does not verify and adds exactly the referenced ids, the empty reference meaning the root. |
| AssertionConsumer.VerifyEachCleartext | crates/tunnelbana-plugins/src/saml2_backend.rs:965-984 | Without a verified envelope every cleartext assertion must be signed and verify on its own subtree. |
| AssertionConsumer.SpliceDecrypted | crates/tunnelbana-plugins/src/saml2_backend.rs:986-1024 | Decrypted assertions follow the cleartext ones and are each proved or enveloped. |
| AssertionConsumer.ProcessAcs | crates/tunnelbana-plugins/src/saml2_backend.rs:889-1173 | An identity comes from the first authenticated assertion, with a readable NameID, of an accepted, correlated and validated message, and such a message always yields one; attributes are those of that assertion alone for step-up; the flow is consumed then and only then, so no second solicited response is accepted. |
| AssertionConsumer.ConsumedAssertionsAreProved | crates/tunnelbana-plugins/src/saml2_backend.rs:940-1115 | With a validator that trusts only reported ids, every consumed assertion is vouched for by the envelope or is, by its own id, the target of a verified reference. |
| AssertionConsumer.AttributesHaveASource | crates/tunnelbana-plugins/src/saml2_backend.rs:447-461 | Aggregated attributes are exactly those of some assertion. |
| AssertionConsumer.ExternalMap | crates/tunnelbana-plugins/src/saml2_backend.rs:1177-1187 | Each name holds the values of the last attribute that carries it as name or friendly name. |
| OpCache.HitsAreVouchedFor | crates/tunnelbana-plugins/src/federation_backend.rs:417-505 | After any run a lookup is answered exactly when the last stored decision for the entity is still signed and was stored less than the cache lifetime ago, with the provider of that decision, whose issuer is the resolved entity. |
| OpCache.CacheIsLastStore | crates/tunnelbana-plugins/src/federation_backend.rs:417-505 | The cache remembers exactly the last accepted decision of every entity. |
| OpCache.StoredExpiry | crates/tunnelbana-plugins/src/federation_backend.rs:436-442 | The stored expiry never exceeds the signed one, so the sum cannot overflow. |
| OpCache.Accept | crates/tunnelbana-plugins/src/federation_backend.rs:443-497 | A decision is accepted exactly when it names its own issuer or none, has the required endpoints, and all its endpoints are safe. |
| OpCache.FederationBackend.ResolveOp | crates/tunnelbana-plugins/src/federation_backend.rs:417-505 | A current cached provider is returned and the cache kept; otherwise exactly an accepted current decision is returned and stored. |
| OpCache.FederationBackend.BoundedTtl | crates/tunnelbana-plugins/src/federation_frontend.rs:592-606 | A lifetime exists exactly before the signed end and never reaches past it. |
| ValueFilters.FilterResponse | crates/tunnelbana-plugins/src/microservices/values.rs:116-145 | The nested loops keep, in order, exactly the values that every applicable pattern matches, for wildcard and specific provider, requester and attribute. |
| ValueFilters.ApplyFilters | crates/tunnelbana-plugins/src/microservices/values.rs:97-107 | One table applied in any order keeps the values that pass the wildcard entry and the entry of their attribute. |
| ValueFilters.SelectTwice | crates/tunnelbana-plugins/src/microservices/values.rs:97-107 | Two selections in a row are the selection both keep, in either order. |
| ValueFilters.RetainKeepsCounts | crates/tunnelbana-plugins/src/microservices/values.rs:97-107 | Every matching value stays as often as it occurred. |
| ValueFilters.FilteringIsIdempotent | crates/tunnelbana-plugins/src/microservices/values.rs:116-145 | Filtering a filtered response changes nothing. |
| AttributeRenaming.Rename | crates/tunnelbana-plugins/src/microservices/values.rs:180-194 | The in-place moves, entry by entry, with values appended to an existing target. |
| AttributeRenaming.ValuesArrive | crates/tunnelbana-plugins/src/microservices/values.rs:180-194 | For any table, chained and self renames included, each name holds exactly the values whose destination it is. |
| AttributeRenaming.NamesArrive | crates/tunnelbana-plugins/src/microservices/values.rs:180-194 | A name is present afterwards exactly when some attribute was sent to it. |
| AttributeRenaming.RenamingConserves | crates/tunnelbana-plugins/src/microservices/values.rs:180-194 | No value is lost, duplicated or invented, for every table in every order. |

## Left out

- MDQ: the client's own freshness rules (its cache keeps or loses entries arbitrarily, and a refresh is a fetch by a lookup), cancellation of a lookup between awaits, and mutex poisoning.
- TTL cache: `load` and `persist`, `expiring_within`, and the saturation of the watermark at the width of `usize`.
- TtlCaches.ReplayGap: says nothing once the clock stands at the largest 64-bit value, because the expiry saturates there.
- ProxyServers: the in-place dispatchers and the renderer have no rows of their own; `Run` states what they compute together.
- State cookie: header formatting beyond name, value and Max-Age; key derivation; the values of clocks within 60 seconds of the 64-bit end are not wrapped.
- StateSeal.HostPrefixFollowsSecure: both directions are stated for the doubled prefix the code keeps, not for the single one an operator would expect.
- Proxy: registration and matching of routes beyond a path having one owner, HTTP status texts (the status hint of an error is a parameter, since `crates/tunnelbana-core/src/error.rs` is not part of this model), and logging.
- Resume.StepUpSuspends: starts where the step-up service has decided to suspend; the policy selection, the size limit of its snapshot, and the account and policy fields the snapshot also holds are part of the functions `challenge`, `answer` and `complete`.
- Disco: the size of a serialized snapshot is a function of the value, because JSON escaping is not modelled; configuration checks and the redirect URL are left out.
- Python: interpreter start-up, conversion to and from Python objects, tracebacks, and which error text a failure gets; a call's wall-clock order is that of the steps.
- Framing: the configuration text that selects the pairwise framing, UTF-8 validity of the byte strings, and the percent-encoding of the error redirect (its two parameters are kept as values).
- ACCR: `MinimumIsAsked` follows the code in not rewriting the forwarded range; interplay with a second negotiation service in the same pipeline.
- Attribute mapping: reading the TOML form and normalizing its two notations, passthrough of unmapped attributes with lower-casing, and the database lookups of the Python service.
- Request object: signature, issuer, audience and age checks are one verification function; parsing of the merged parameters into a request follows later and is not modelled.
- Assertion consumer: XML parsing and decryption (their results are fields of the message), the validator's own checks, the mapping of the NameID format to a subject type, and error texts; that the n-th cleartext source is the n-th parsed assertion is taken from document order.
- Provider cache: resolution through trust anchors and the URL rules of the endpoint check are parameters; that a resolved subject is the requested entity is not assumed.
- Value filters: pattern syntax; a pattern is the predicate it defines. Compiling the filter configuration is left out.
- `static_attributes`, `filter_attributes`, `hasher`, `legacy_eptid`, `nameid`, `custom_logging`, `gender`, metadata generation, and HTTP and TLS plumbing: single-step members or input and output.
