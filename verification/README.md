# Verified model of the SSO gateway's core

This project models the parts of the gateway whose correctness spans several
calls, several replicas or a whole history, and proves what they keep. Every
file under this directory is Dafny 4.11; `dafny verify dfyconfig.toml` checks
all of them together.

**Agent act-tokens.** Replicas share three tables (agents, delegation grants,
minted tokens) and each keeps a token cache and a status cache in front of
them. Revoking or disabling writes a table, evicts locally and broadcasts over
a channel that may lose messages. `AgentStores` says what each operation does,
`AgentTables` and `AuthPaths` say what these mean row by row and answer by
answer, `AgentAuthority` holds the classes that run them, and two step systems
over any number of replicas say what follows: `AtomicProtocol` with every call
as one step, and `SplitProtocol` with a resolve split at each await, so that
its cache insert can land after an eviction. `SplitRefinement` ties the two
together.

**Rate limiter.** The lazily refilled, clipped and capped token buckets obey an
exact law: a check is allowed if and only if no window of its bucket overflows.

**Tables and lists.** The permission-namespace type index agrees with the
stored models. Keyset pagination lists a filtered table once. The text of each
list query, parsed and run with its bound values, means the plain filter.

**Introspection and subjects.** A cache hit is a recent upstream answer. The
one-pass subject resolver equals the two older passes exactly when the rows
allow it, and moving a mapping between tenants loses nothing under a stated
condition.

**Smaller cores.** Branded-path validation and the Kratos path translation,
cookie reassembly, connection secrets, and home-realm discovery.

## Where the code and its words differ

- `services/agent.rs` says in a comment that re-enabling an agent takes effect
  immediately. Eviction keeps negative entries, so a token refused while the
  agent was disabled stays refused for up to one cache TTL
  (`AtomicExamples.ReenableIsNotImmediate`; the exact conditions are
  `AtomicTheorems.DisagreesIffStale` and `AtomicTheorems.StaleNegativeWasDisabled`).
- `agent_tokens.rs` says that eviction makes revocation immediate. With a
  resolve in flight it does not (`SplitExamples.EvictionRace`; the exact
  condition is `SplitTheorems.StillServableIffThreat`).
- `middleware.rs` says that at the key cap the limiter drops the buckets that
  are full again. Levels are refilled only when their key is checked, so no
  stored level is full and the whole map is dropped, also the buckets that are
  not full again (`RateLimiter.MakeRoomForgetsAll`; a run that does it is
  `RateLimiter.CapDropsUnfilledBucket`).
- No reserved prefix covers the public path `/userinfo`, so a branded path may
  be configured there (`BrandedPaths.UserinfoIsAccepted`).
- Validation accepts a branded path below another one, and the path translation
  then sends it to the other flow (`KratosPaths.NestedPathsMisroute`,
  `KratosPaths.NestedPathsAreAccepted`; the exact condition is
  `KratosPaths.KratosRoundTripIff`).

## Assumptions

`hash_token` is injective, so a token and its hash are one string. Ids and
token hashes are fresh when drawn. All clocks are one clock that never goes
back; the limiter's levels and times are reals and its window is positive. A
moka cache is a map from keys to values with insertion times. Every revoke,
status change or delete owes its invalidate call. Transactions run one at a
time. AES-GCM with base64 opens what it sealed under the same 32-byte key. Ids
are ordered character by character. Text columns are compared character by
character.

## Model

| member | source | states |
|---|---|---|
| AgentAuthority.AgentDatabase.SetAgentStatus | crates/sso-gateway/src/db/agent.rs:130-146 | the status changes for the agent of that tenant only; anyone else is not found and nothing changes |
| AgentAuthority.AgentDatabase.DeleteAgentRow | crates/sso-gateway/src/db/agent.rs:148-158 | deleting an agent removes its grants and their tokens with it, and nothing else |
| AgentAuthority.AgentDatabase.RevokeDelegation | crates/sso-gateway/src/db/agent_delegation.rs:120-130 | a revocation is recorded once: the first time stays |
| AgentAuthority.AgentDatabase.InsertTokenRow | crates/sso-gateway/src/db/agent_act_token.rs:52-77 | a token row is added if its hash is new and its grant exists, otherwise nothing changes |
| AgentAuthority.AgentTokenAuthority.Mint | crates/sso-gateway/src/agent_tokens.rs:143-163 | the stored token is the grant's, expires at the earlier of the grant's expiry and one token lifetime from now, replaces no row, and the lifetime returned is the whole seconds left |
| AgentAuthority.AgentTokenAuthority.InvalidateDelegation | crates/sso-gateway/src/agent_tokens.rs:165-174 | evicts exactly the positive entries of the grant and broadcasts once if there is a broker |
| AgentAuthority.AgentTokenAuthority.InvalidateAgent | crates/sso-gateway/src/agent_tokens.rs:176-184 | evicts the agent's status and exactly its positive token entries, and broadcasts once if there is a broker |
| AgentAuthority.AgentTokenAuthority.EvictDelegation | crates/sso-gateway/src/agent_tokens.rs:201-213 | keeps negative entries and other grants' entries with their insertion times |
| AgentAuthority.AgentTokenAuthority.EvictAgent | crates/sso-gateway/src/agent_tokens.rs:215-226 | keeps negative entries and other agents' entries with their insertion times |
| AgentAuthority.AgentTokenAuthority.HandleInvalidation | crates/sso-gateway/src/agent_tokens.rs:186-193 | a remote message evicts like a local one and is never broadcast again; an undecodable one changes nothing |
| AgentAuthority.AgentTokenAuthority.ValidateActTokenRow | crates/sso-gateway/src/agent_tokens.rs:228-261 | the answer of the tables for one token row, with the failure of either later read kept apart from a refusal |
| AgentAuthority.AgentTokenAuthority.ResolveActToken | crates/sso-gateway/src/agent_tokens.rs:266-279 | a readable entry answers subject to the token's own expiry; a miss caches what the tables say; an error caches nothing |
| AgentAuthority.AgentTokenAuthority.AgentStatus | crates/sso-gateway/src/agent_tokens.rs:281-295 | status reads are cached with absence, errors are not |
| AgentAuthority.AuthenticateBearerToken | crates/sso-gateway/src/middleware.rs:466-569 | both authentication paths with every refusal and both caches they leave behind, with a resolver installed and without one |
| AuthPaths.ActorsComeFromActTokens | crates/sso-gateway/src/middleware.rs:472-495 | a context with an actor is exactly an accepted act-token, with its tenant, user, agent, grant and scopes |
| AuthPaths.OthersAreIntrospected | crates/sso-gateway/src/middleware.rs:497-569 | a context without an actor is exactly an active introspected token of a known subject that is not an inactive agent, with the resolved tenant and subject and the introspected scopes; a user exactly for a Kratos subject, an agent exactly for an active one |
| AuthPaths.RefusalsMean | crates/sso-gateway/src/middleware.rs:490-569 | exactly when each of the three refusals is given |
| AuthPaths.DisabledAgentIsRefused | crates/sso-gateway/src/middleware.rs:538-545 | a registered agent that is not active is refused its own tokens |
| AuthPaths.StatusAnswerMeans | crates/sso-gateway/src/agent_tokens.rs:281-295 | the status is the cached one while it is fresh, then the table's |
| AgentTables.RegisterAgentMeans | crates/sso-gateway/src/db/agent.rs:72-91 | a registered agent is active and its tenant's, and every other row stays |
| AgentTables.SetStatusMeans | crates/sso-gateway/src/db/agent.rs:130-146 | the agent gets the status if and only if it is that tenant's; every other row of the three tables stays |
| AgentTables.DeleteAgentMeans | crates/sso-gateway/src/db/agent.rs:148-158 | exactly the tenant's own agent, its grants and their tokens go |
| AgentTables.RevokeMeans | crates/sso-gateway/src/db/agent_delegation.rs:120-130 | exactly the tenant's own grant is marked, once, and keeps its terms |
| AgentTables.CreateDelegationMeans | crates/sso-gateway/src/db/agent_delegation.rs:73-96 | a new grant is live, has the given terms and replaces nothing |
| AgentTables.InsertTokenMeans | crates/sso-gateway/src/db/agent_act_token.rs:52-77 | a token row is added if and only if its hash is new and its grant exists |
| AgentTables.MintedRowMeans | crates/sso-gateway/src/agent_tokens.rs:148-160 | a minted row copies its grant and takes the earlier of the two expiries |
| AgentTables.ValidateRowMeans | crates/sso-gateway/src/agent_tokens.rs:228-261 | a row is accepted if and only if it is unexpired, its grant live and its agent active, with its own fields as claims; it fails if and only if a table still needed is down |
| AgentTables.EvictionIsExact | crates/sso-gateway/src/agent_tokens.rs:201-226 | exactly which entries of the two caches an invalidation drops |
| AgentTables.StatusIsCached | crates/sso-gateway/src/agent_tokens.rs:281-295 | what a status read leaves in the cache, for its own and every other key |
| AgentTables.StatusIsRepeated | crates/sso-gateway/src/agent_tokens.rs:281-295 | within one TTL the same status is answered again |
| AgentTables.AnswerIsRepeated | crates/sso-gateway/src/agent_tokens.rs:266-279 | within one TTL the same token answer is given again, up to the token's own expiry |
| AtomicTheorems.StepKeepsInv | crates/sso-gateway/src/agent_tokens.rs:143-295 | every step of every replica keeps the invariant: each cached entry is what some earlier tables said, and each one that is now wrong is covered by an invalidation not yet applied there |
| AtomicTheorems.RunKeepsInv | crates/sso-gateway/src/agent_tokens.rs:143-295 | the invariant holds after every run |
| AtomicTheorems.DisagreesIffStale | crates/sso-gateway/src/agent_tokens.rs:228-279 | in every reachable world a resolve differs from the tables if and only if it meets a stale positive or a stale negative entry |
| AtomicTheorems.StalePositiveIsAccountedFor | crates/sso-gateway/src/agent_tokens.rs:165-226 | each stale positive is younger than the TTL, was true of the tables when cached, and awaits an invalidation that is owed, in flight or lost |
| AtomicTheorems.StaleNegativeWasDisabled | crates/sso-gateway/src/agent_tokens.rs:215-279 | a stale negative is younger than the TTL and can only come from an agent that was disabled when it was cached |
| AtomicTheorems.CaughtUpReplicaIsExact | crates/sso-gateway/src/agent_tokens.rs:186-226 | a replica with no invalidation outstanding that concerns a key has no stale positive and no wrong status for it |
| AtomicTheorems.AppliedIsSettled | crates/sso-gateway/src/agent_tokens.rs:165-226 | applying an invalidation at a replica drops its entries and settles it there: it no longer counts as lost, and only another copy in flight or another write that owes its call can cover it |
| AtomicTheorems.ServedBeforeGrantExpires | crates/sso-gateway/src/agent_tokens.rs:266-279 | a served token is unexpired and so is its grant, although a hit never reads the grant again |
| AtomicTheorems.ServedClaimsAreTheGrants | crates/sso-gateway/src/agent_tokens.rs:253-260 | in every reachable world a served token carries its grant's own tenant, user, agent and scopes |
| AtomicTheorems.ActingContextIsTheGrants | crates/sso-gateway/src/middleware.rs:472-487 | so does the context of a login by act-token |
| AtomicTheorems.WrongStatusIsAccountedFor | crates/sso-gateway/src/agent_tokens.rs:281-295 | a wrong status answer comes from a readable entry that awaits an invalidation |
| AtomicTheorems.TenantsAreIsolated | crates/sso-gateway/src/db/agent.rs:130-158 | no run without a write in a tenant's name changes that tenant's agents, grants or tokens |
| AtomicTheorems.StatusChangeIsExact | crates/sso-gateway/src/services/agent.rs:241-248 | a status change by the agent's own tenant takes effect in the tables and owes its invalidation; any other changes nothing |
| AtomicTheorems.RevocationIsFinal | crates/sso-gateway/src/agent_tokens.rs:165-213 | once a revoked grant's invalidation has run on a replica, locally or delivered, nothing there serves the grant again in any continuation |
| AtomicTheorems.GrantStaysOut | crates/sso-gateway/src/db/agent_delegation.rs:120-130 | a dead grant with no entry on a replica is served by none of its later outputs, on either path |
| AtomicTheorems.BigRedButton | crates/sso-gateway/src/middleware.rs:466-569 | once an agent is off and evicted on a replica, no bearer token is admitted there as that agent or on its behalf until it is made active again; while it stays registered, its own tokens are not admitted as a client's either |
| AtomicTheorems.AgentStaysOff | crates/sso-gateway/src/agent_tokens.rs:215-226 | the same over every continuation, from the state of the replica's two caches |
| AtomicTheorems.AgentStaysDown | crates/sso-gateway/src/middleware.rs:533-552 | a registered agent that is not active and not believed active gets none of its own tokens admitted, in any continuation that neither enables nor removes it |
| AtomicExamples.ReenableIsNotImmediate | crates/sso-gateway/src/services/agent.rs:241-248 | a run after which nothing is outstanding, the tables accept a token and the only replica still refuses it |
| SplitTheorems.StepKeepsInv | crates/sso-gateway/src/agent_tokens.rs:228-279 | with resolves split at their reads, every step keeps each acceptance backed by reads that really happened, in order |
| SplitTheorems.RunKeepsInv | crates/sso-gateway/src/agent_tokens.rs:228-279 | so does every interleaving |
| SplitTheorems.CachedAnswerIsBacked | crates/sso-gateway/src/agent_tokens.rs:228-279 | a token served from cache is unexpired, carries the claims of the grant it was read against and expires no later, its entry is younger than the TTL, and its reads found the token unexpired, the grant live and the agent active, all before any revocation of the grant |
| SplitTheorems.ComputedAnswerIsBacked | crates/sso-gateway/src/agent_tokens.rs:228-279 | the same evidence and claims for a resolve that answers from its own reads |
| SplitTheorems.EvidenceIsBounded | crates/sso-gateway/src/agent_tokens.rs:143-163 | an accepted token has its grant's tenant, user, agent and scopes and expires no later, in the tables of every moment at which the grant exists |
| SplitTheorems.NoNewCarriers | crates/sso-gateway/src/agent_tokens.rs:242-250 | no resolve that reads a grant after its revocation can come to accept it |
| SplitTheorems.BarredFades | crates/sso-gateway/src/agent_tokens.rs:266-279 | once the tables refuse a grant or an agent and no resolve in flight can accept it, its last service comes within one TTL of its last insertion |
| SplitTheorems.RevocationWithinOneTtl | crates/sso-gateway/src/agent_tokens.rs:266-279 | with a grant revoked and no resolve carrying it, no replica serves it one TTL later, even if every message is lost |
| SplitTheorems.DisableWithinOneTtl | crates/sso-gateway/src/agent_tokens.rs:251-279 | with an agent disabled or deleted and no resolve that has read it as active, no replica serves a token of it one TTL later, while nothing enables it |
| SplitTheorems.SafeIsSilent | crates/sso-gateway/src/agent_tokens.rs:195-213 | a replica with a dead grant, no entry for it and no resolve that can still accept it never serves it |
| SplitTheorems.ThreatCanServe | crates/sso-gateway/src/agent_tokens.rs:195-213 | each such resolve has a continuation that does serve it |
| SplitTheorems.StillServableIffThreat | crates/sso-gateway/src/agent_tokens.rs:195-213 | a revoked and evicted grant can still be served on a replica if and only if a resolve there read it before the revocation and can still be accepted |
| SplitTheorems.AgentServableIffAccepted | crates/sso-gateway/src/agent_tokens.rs:215-261 | a disabled and evicted agent can still be served on a replica, while it stays disabled, if and only if a resolve there read its status before |
| SplitExamples.EvictionRace | crates/sso-gateway/src/agent_tokens.rs:195-213 | a named run that ends in the revoke and the eviction leaves nothing for the grant in the cache; two more steps of the resolve in flight and the next lookup is a hit that serves it |
| SplitRefinement.UninterruptedResolve | crates/sso-gateway/src/agent_tokens.rs:266-279 | a resolve that nothing interrupts answers and caches exactly what the one-step resolve does, from any world |
| SplitRefinement.HitIsTheSame | crates/sso-gateway/src/agent_tokens.rs:266-270 | so does a hit |
| SplitRefinement.FailedReadCachesNothing | crates/sso-gateway/src/agent_tokens.rs:228-279 | a failed read ends a resolve with an error and caches nothing |
| SplitRefinement.EvictionClears | crates/sso-gateway/src/agent_tokens.rs:201-226 | an eviction leaves nothing that its message hits, and all the rest |
| RateLimiter.LevelIsLeastHeadroom | crates/sso-gateway/src/middleware.rs:61-92 | the refilled level is the least headroom over all windows of the bucket |
| RateLimiter.ExactLaw | crates/sso-gateway/src/middleware.rs:61-92 | in every run from an empty limiter, check n of a bucket was allowed if and only if for every j up to n the requests allowed since j, plus one, are at most max + (t_n - t_j) * max / per |
| RateLimiter.WindowBound | crates/sso-gateway/src/middleware.rs:49-60 | in every run, no window of a bucket admits more than max plus what it has earned |
| RateLimiter.EveryRunIsLawful | crates/sso-gateway/src/middleware.rs:46-92 | after any run the map is under its cap, every level is in [0, max), and every answer obeys the law |
| RateLimiter.CheckKeepsInv | crates/sso-gateway/src/middleware.rs:46-92 | one check keeps all of this for every key |
| RateLimiter.CheckTouchesOneKey | crates/sso-gateway/src/middleware.rs:68-82 | a check leaves other buckets untouched, unless it hit the cap, which empties the map |
| RateLimiter.MakeRoomForgetsAll | crates/sso-gateway/src/middleware.rs:68-75 | at the cap no stored level is full, so making room drops every bucket |
| RateLimiter.CapDropsUnfilledBucket | crates/sso-gateway/src/middleware.rs:68-75 | a run that reaches the cap with every bucket full again but one, after which the next new key drops that one too |
| RateLimiter.KeyedRateLimiter.TakeToken | crates/sso-gateway/src/middleware.rs:61-92 | the mutating check computes the modelled step, with its two clock reads |
| RateLimiter.KeyedRateLimiter.CheckRequest | crates/sso-gateway/src/middleware.rs:61-92 | the answer is exactly whether every window has room |
| Pagination.PagesOfFixedTable | crates/sso-gateway/src/services/agent.rs:662-676 | on a fixed table, following last-row cursors ends and the pages together are the filtered table, newest first |
| Pagination.PagesUnderChange | crates/sso-gateway/src/services/agent.rs:662-676 | whatever is inserted or deleted between pages, no row repeats and every row present throughout appears once |
| Pagination.PageFacts | crates/sso-gateway/src/db/permission.rs:292-303 | a page leaves out only rows below its last one, and only when it is full |
| Pagination.PageIsNewestFirst | crates/sso-gateway/src/db/permission.rs:300-303 | a page is newest first, rows of one moment by descending id |
| Pagination.NextListing | crates/sso-gateway/src/db/permission.rs:292-303 | the listing below a full page's cursor is the rest of the listing |
| Pagination.DescendingIsUnique | crates/sso-gateway/src/db/permission.rs:300-303 | the order by (created_at, id) fixes the listing |
| ListQueries.TextParses | crates/sso-gateway/src/db/permission.rs:263-303 | parsing the text of any such statement gives the statement back |
| ListQueries.PageTextMeans | crates/sso-gateway/src/db/permission.rs:263-320 | a page query whose placeholders number its conditions, cursor and limit in bind order returns the page of the plain conditions, over any table |
| ListQueries.CountTextMeans | crates/sso-gateway/src/db/permission.rs:278-290 | the count query returns the number of rows that meet the conditions |
| ListQueries.PagedText | crates/sso-gateway/src/db/permission.rs:292-303 | the text put together piece by piece is the text of the numbered statement |
| PermissionTuples.PageQueryMeansFilter | crates/sso-gateway/src/db/permission.rs:263-320 | for every combination of optional filters and cursor the built text with its values returns the page of the plain filter |
| PermissionTuples.CountQueryMeansFilter | crates/sso-gateway/src/db/permission.rs:278-290 | the count ignores the cursor and counts the rows the filter matches |
| PermissionTuples.PermissionTupleStore.ListPage | crates/sso-gateway/src/db/permission.rs:254-322 | the builder with its running placeholder number returns the filtered page and the total |
| PermissionTuples.PermissionTupleStore.FilterConditions | crates/sso-gateway/src/db/permission.rs:263-276 | the placeholder number always points one past the conditions written |
| PermissionTuples.PermissionTupleStore.BindFilter | crates/sso-gateway/src/db/permission.rs:304-314 | values are bound in the order of the conditions |
| PermissionTuples.PermissionTupleStore.CreateMany | crates/sso-gateway/src/db/permission.rs:132-163 | adds one row per key under the fresh ids and keeps row keys distinct |
| PermissionTuples.PermissionTupleStore.DeleteByKey | crates/sso-gateway/src/db/permission.rs:165-186 | removes exactly the rows with that key and reports how many |
| PermissionTuples.PermissionTupleStore.DeleteByNamespace | crates/sso-gateway/src/db/permission.rs:188-200 | removes exactly the tenant's rows of that namespace and reports how many |
| PermissionTuples.DeletionConserves | crates/sso-gateway/src/db/permission.rs:165-200 | removed and kept rows together are the table |
| AgentLists.AgentListPage | crates/sso-gateway/src/db/agent.rs:160-187 | the query with its literal placeholders returns the page and the number of the agents whose tenant it is, with or without a cursor |
| AgentLists.GrantListPage | crates/sso-gateway/src/db/agent_delegation.rs:132-170 | the same for the tenant's grants of one agent or for one user |
| Namespaces.TypesAreExact | crates/sso-gateway/src/db/permission_namespace.rs:30-45 | the computed names are sorted and are exactly the types with a relation |
| Namespaces.BearsMeans | crates/sso-gateway/src/db/permission_namespace.rs:30-45 | a type counts when an entry of the model's list has that type and a non-empty object of relations |
| Namespaces.RefusedIffOwnedElsewhere | crates/sso-gateway/src/db/permission_namespace.rs:126-160 | an upsert is refused if and only if another namespace's current model bears one of its types |
| Namespaces.UpsertKeepsIndex | crates/sso-gateway/src/db/permission_namespace.rs:126-199 | an accepted upsert keeps index and models in agreement |
| Namespaces.DeleteKeepsIndex | crates/sso-gateway/src/db/permission_namespace.rs:201-209 | so does a delete |
| Namespaces.GetByTypeScansModels | crates/sso-gateway/src/db/permission_namespace.rs:85-104 | lookup by type is the namespace whose model bears the type, else the namespace of that name, else none |
| Namespaces.RunKeepsIndex | crates/sso-gateway/src/db/permission_namespace.rs:126-209 | every run of upserts and deletes keeps the agreement |
| Namespaces.EveryRunIndexesTheModels | crates/sso-gateway/src/db/permission_namespace.rs:85-209 | after any run from empty tables a namespace's index rows are its current model's types, no type has two owners in a tenant, and lookup by type is the scan of the models with its fallback |
| Namespaces.UpsertedRowMeans | crates/sso-gateway/src/db/permission_namespace.rs:152-170 | an upsert sets the model, replaces an id that is given, keeps one that is not, keeps the creation time, and leaves other rows |
| Namespaces.DeleteMeans | crates/sso-gateway/src/db/permission_namespace.rs:201-209 | a delete drops its own row only |
| Namespaces.IdsAreTheLastGiven | crates/sso-gateway/src/db/permission_namespace.rs:152-170 | over any run that gives none, a namespace keeps its store id and its model id |
| Namespaces.GivenIdsSurvive | crates/sso-gateway/src/db/permission_namespace.rs:152-170 | ids given by an accepted upsert are in the row after any such run |
| Namespaces.PermissionNamespaceStore.UpsertNamespace | crates/sso-gateway/src/db/permission_namespace.rs:126-199 | the transaction's statements give the modelled tables; a conflict names an offending type and changes nothing |
| Namespaces.PermissionNamespaceStore.DeleteNamespace | crates/sso-gateway/src/db/permission_namespace.rs:201-209 | the namespace goes with its index rows |
| Introspection.RowRoundTrip | crates/sso-gateway/src/auth.rs:113-131 | for every upstream answer, storing and reading back drops only the authentication methods, also for missing, empty and oddly spaced scopes |
| Introspection.FromHydraMeans | crates/sso-gateway/src/auth.rs:113-131 | a token is active if and only if the answer's member says true; subject and expiry are read off theirs |
| Introspection.ScopesMean | crates/sso-gateway/src/auth.rs:117-120 | the scopes are the space-free pieces whose join is the scope text |
| Introspection.AuthenticationMethodsMean | crates/sso-gateway/src/auth.rs:139-165 | a method is reported if and only if an entry of the list, the extension's first, names it |
| Introspection.HitRefinesUpstream | crates/sso-gateway/src/auth.rs:229-278 | after any run a hit is active, not past its expiry, and is the latest answer stored for the token, at most the maximum age ago, whose JSON said that it was active |
| Introspection.StoredAnswerIsServed | crates/sso-gateway/src/auth.rs:229-278 | a stored answer is served within its age and expiry until it is removed or stored anew |
| Introspection.MissAsksUpstream | crates/sso-gateway/src/auth.rs:244-278 | without a hit the upstream decides, whether or not its answer can be written |
| Introspection.RemovedIsMissed | crates/sso-gateway/src/db/token_cache.rs:115-121 | a removed token is asked for upstream again |
| Introspection.RunKeepsInv | crates/sso-gateway/src/db/token_cache.rs:56-123 | every run of calls and removals keeps each row backed by its latest stored answer |
| Introspection.CachedTokenIntrospector.IntrospectToken | crates/sso-gateway/src/auth.rs:229-278 | inactive answers and failed writes are not cached; a failed read is an error |
| IdMappings.RehomeConserves | crates/sso-gateway/src/db/id_mapping.rs:584-618 | with public ids unique per backend, moving a mapping keeps every other row, its own ids and its creation time |
| IdMappings.RehomeLosesIffOccupied | crates/sso-gateway/src/db/id_mapping.rs:584-618 | a move loses a row if and only if the target key is taken by another one |
| IdMappings.RehomeCanLose | crates/sso-gateway/src/db/id_mapping.rs:584-618 | two creates of one public id under two tenants and a move leave one row of the two |
| IdMappings.StepKeepsKeys | crates/sso-gateway/src/db/id_mapping.rs:403-435 | keys agree with rows after every step; unique public ids stay unique if and only if a created one was unused on its backend |
| IdMappings.RunKeepsKeys | crates/sso-gateway/src/db/id_mapping.rs:396-618 | keys agree with rows after every run; public ids stay unique over runs that create unused ones |
| IdMappings.StepIsExact | crates/sso-gateway/src/db/id_mapping.rs:403-618 | what a create, a delete and a move do to every key |
| IdMappings.MemoryIdMappingStore.CreateAt | crates/sso-gateway/src/db/id_mapping.rs:403-435 | a taken key is refused and the table kept; otherwise the row is added |
| IdMappings.MemoryIdMappingStore.UpdateTenant | crates/sso-gateway/src/db/id_mapping.rs:584-618 | moves a row with that backend and public id, or reports that there is none |
| IdMappings.OnePassIffUnambiguous | crates/sso-gateway/src/auth.rs:310-389 | one pass equals the two older passes, whatever rows their lookups meet first, if and only if the answering backend's rows agree on tenant and public id |
| IdMappings.ResolveSubjectMeans | crates/sso-gateway/src/auth.rs:350-389 | one pass answers for the first backend with a row, with the tenant and public id its two lookups find, and knows no one else |
| IdMappings.UniqueOryIsUnambiguous | crates/sso-gateway/src/auth.rs:350-389 | backend ids unique per backend are enough |
| BrandedPaths.Validate | crates/sso-gateway/src/config.rs:303-343 | accepts exactly the configurations whose paths are well formed, distinct and not below the callback; each of the five errors names a variable with that very fault, and the first such one |
| BrandedPaths.RoutesAreExclusive | crates/sso-gateway/src/config.rs:328-341 | with accepted paths no request matches two of the ten branded routes |
| BrandedPaths.BrowserPathsAvoidReserved | crates/sso-gateway/src/config.rs:246-255 | nothing at or below an accepted path lies under a reserved prefix |
| BrandedPaths.PublicIsReservedExceptUserinfo | crates/sso-gateway/src/middleware.rs:257-279 | `/userinfo` is the only public path outside the reserved prefixes |
| BrandedPaths.BrowserPathsArePublicOnlyAtUserinfo | crates/sso-gateway/src/middleware.rs:257-279 | a branded request is public if and only if it is `/userinfo`, which must then be configured |
| BrandedPaths.RoutesAvoidReservedAndPublic | crates/sso-gateway/src/middleware.rs:257-279 | a request that a branded route matches is never reserved, and is public only as an exact path `/userinfo` |
| BrandedPaths.UserinfoIsAccepted | crates/sso-gateway/src/config.rs:303-343 | such a configuration is accepted |
| PublicPaths.WellFormedMeans | crates/sso-gateway/src/config.rs:305-326 | what one path must be, segment by segment |
| PublicPaths.ReservedMeans | crates/sso-gateway/src/config.rs:246-255 | the reserved paths are those whose first segment is one of the eight names |
| PublicPaths.PublicMeans | crates/sso-gateway/src/middleware.rs:257-279 | the public paths, segment by segment, and no others |
| PublicPaths.ServicesAreNotPublic | crates/sso-gateway/src/middleware.rs:257-279 | nothing at or below `/iam` is public |
| KratosPaths.TranslatesIffBrowserPath | crates/sso-gateway/src/services/self_service_url_rewriter.rs:140-152 | the translation succeeds on exactly the paths at or below a configured one |
| KratosPaths.GatewayRoundTrip | crates/sso-gateway/src/services/self_service_url_rewriter.rs:91-146 | gateway to Kratos and back is the identity on the whole branded surface |
| KratosPaths.GatewayIsInjective | crates/sso-gateway/src/services/self_service_url_rewriter.rs:140-146 | two gateway paths never reach one Kratos path |
| KratosPaths.KratosRoundTripIff | crates/sso-gateway/src/services/self_service_url_rewriter.rs:91-146 | Kratos to gateway and back is the identity if and only if no earlier row claims the gateway path |
| KratosPaths.FlatPathsRoundTrip | crates/sso-gateway/src/services/self_service_url_rewriter.rs:91-146 | accepted paths that do not nest give that round trip outside the short forms |
| KratosPaths.PagesReachTheirFlows | crates/sso-gateway/src/services/self_service_url_rewriter.rs:91-146 | for accepted and flat paths each page reaches its own flow, with what follows it kept |
| KratosPaths.ShortFormsChange | crates/sso-gateway/src/services/self_service_url_rewriter.rs:105-107 | the short forms of recovery, verification and logout do not come back |
| KratosPaths.NestedPathsMisroute | crates/sso-gateway/src/services/self_service_url_rewriter.rs:140-146 | a settings page below the login page is sent to login |
| KratosPaths.NestedPathsAreAccepted | crates/sso-gateway/src/config.rs:303-343 | validation accepts such a nesting |
| Cookies.SessionCookieReadsPieces | crates/sso-gateway/src/middleware.rs:413-434 | the answer on the joined text is the first match among each field's own pieces |
| Cookies.SessionCookieMeans | crates/sso-gateway/src/middleware.rs:413-434 | a value is found if and only if some piece reads name=value and no earlier piece carries the name |
| Cookies.RegroupingIsInvisible | crates/sso-gateway/src/middleware.rs:413-423 | cutting a field in two at any "; " never changes the answer |
| Cookies.SessionCookieConcat | crates/sso-gateway/src/middleware.rs:413-434 | the answer of a field list is the first answer among its parts |
| Cookies.TrimMeans | crates/sso-gateway/src/middleware.rs:427-428 | trimming removes white space at both ends and nothing else |
| Cookies.UndecodableIsSkipped | crates/sso-gateway/src/middleware.rs:417-422 | a field that is not visible ASCII changes nothing |
| ConnectionSecrets.ConfigRoundTrip | crates/sso-gateway/src/db/connection.rs:114-159 | with one key state, valid, absent or of the wrong length, reading undoes writing on every config |
| ConnectionSecrets.StoredConfigMeans | crates/sso-gateway/src/db/connection.rs:130-144 | with a 32-byte key a text secret is stored marked and sealed, otherwise as it is; no other member changes |
| ConnectionSecrets.ReadConfigMeans | crates/sso-gateway/src/db/connection.rs:146-159 | a read changes at most a marked secret that opens |
| ConnectionSecrets.KeyRolloutReadsBackIff | crates/sso-gateway/src/db/connection.rs:130-159 | a config written without a usable key reads back under a new key if and only if its secret is not marked text that the key opens to another secret |
| Connections.SealedRefinesPlain | crates/sso-gateway/src/db/connection.rs:178-299 | after any run readers see what a store that never encrypts would hold |
| Connections.ReadsLastWrite | crates/sso-gateway/src/db/connection.rs:178-299 | a read returns the config of the last create or update |
| Connections.StepKeepsInv | crates/sso-gateway/src/db/connection.rs:161-204 | each connection's own tenant has verified its domain, kept by every step although check and insert are separate statements |
| Connections.RunKeepsInv | crates/sso-gateway/src/db/domain.rs:40-86 | so in every reachable state |
| Connections.OneHolder | crates/sso-gateway/src/db/connection.rs:161-176 | the domain of a connection is held by its tenant alone |
| Connections.TenantsAreIsolated | crates/sso-gateway/src/db/connection.rs:218-293 | no run in which nobody acts for a tenant changes its domains or connections |
| Connections.VerificationIsExact | crates/sso-gateway/src/db/domain.rs:70-86 | only the tenant's own row becomes verified |
| Connections.RegistrationIsExact | crates/sso-gateway/src/db/domain.rs:40-56 | a domain is registered unverified if and only if nobody holds it |
| Connections.InsertIsExact | crates/sso-gateway/src/db/connection.rs:178-203 | a new connection is enabled, holds what was given, and needs a passed check and an unused domain |
| Connections.ConnectionWritesAreExact | crates/sso-gateway/src/db/connection.rs:252-293 | an update and a switch change one field of the tenant's own row |
| Connections.TenantDomainStore.Create | crates/sso-gateway/src/db/domain.rs:40-56 | a free domain is added unverified; a taken one is refused and nothing changes |
| Connections.TenantDomainStore.MarkVerified | crates/sso-gateway/src/db/domain.rs:70-86 | only the tenant's own row becomes verified |
| Connections.TenantConnectionStore.Create | crates/sso-gateway/src/db/connection.rs:178-203 | refused without a verified domain of that tenant; otherwise the sealed config is stored and the plain one returned |
| Connections.TenantConnectionStore.GetByDomain | crates/sso-gateway/src/db/connection.rs:205-216 | returns an enabled connection for the domain, decrypted, or says there is none |
| Connections.TenantConnectionStore.UpdateConfig | crates/sso-gateway/src/db/connection.rs:252-272 | replaces the config of the tenant's own connection and returns it as written |
| Connections.TenantConnectionStore.SetEnabled | crates/sso-gateway/src/db/connection.rs:274-293 | switches the tenant's own connection and nothing else |
| HomeRealm.EmailMeans | crates/sso-gateway/src/hrd.rs:185-200 | the accepted addresses are exactly local@domain with one @ and a domain, and that domain is looked up |
| HomeRealm.RequestRefusals | crates/sso-gateway/src/hrd.rs:185-210 | which refusal a bad request gets |
| HomeRealm.DiscoverMeans | crates/sso-gateway/src/hrd.rs:122-174 | in every reachable state the answer is the redirect of the one enabled connection for the domain, as the next rows describe it, or tenant selection when there is none |
| HomeRealm.OidcRedirectMeans | crates/sso-gateway/src/hrd.rs:221-254 | an OIDC redirect goes to the issuer's authorize endpoint with the config's own client id, redirect URI and scopes |
| HomeRealm.OAuth2RedirectMeans | crates/sso-gateway/src/hrd.rs:256-288 | an OAuth2 redirect goes to the configured URL with the same members |
| HomeRealm.SamlRedirectMeans | crates/sso-gateway/src/hrd.rs:290-312 | a SAML redirect goes to the sign-on URL of the named provider, and fails only for want of one |
| HomeRealm.RedirectErrorsMean | crates/sso-gateway/src/hrd.rs:221-288 | the error names the first missing member, in order |
| HomeRealm.NormalizeIssuerMeans | crates/sso-gateway/src/hrd.rs:314-320 | an issuer with a scheme loses its trailing slashes, one without gets https |
| HomeRealm.NonEmptyTextsMean | crates/sso-gateway/src/hrd.rs:231-242 | the scopes are the non-empty texts of the list, in order |
| HomeRealm.UnverifiedIsNeverRedirected | crates/sso-gateway/src/hrd.rs:138-143 | over any tables, an address whose domain nobody has verified is never redirected |
| HomeRealm.RedirectIsJustified | crates/sso-gateway/src/hrd.rs:122-183 | a redirect comes from an enabled connection whose tenant has verified the domain of the address |
| HomeRealm.DiscoveryIsSafe | crates/sso-gateway/src/hrd.rs:122-183 | from empty tables, over any run and key state, discovery answers as if nothing were encrypted and every redirect is justified |

## Left out

- HTTP clients for Hydra, Kratos and OpenFGA, JWKS parsing, DNS verification and upstream OAuth: their outcome is decided outside the code.
- Wiring, startup, audit logging, tracing, row decoding and the mapping of errors to statuses elsewhere than in bearer authentication.
- Local authentication, login state, identity schemas and applications: plain create, read, update and delete.
- Concurrent transactions inside one namespace upsert; transactions are serial.
- Floating-point rounding in the limiter, and a poisoned lock.
- The status cache in the split protocol; it is in the one-step protocol only.
- The size bound of the two moka caches (an entry dropped early is a miss).
- The unpaged tuple list, whose order leaves ties open, and page-token encoding.
- The database-error branch of the subject resolvers.
- Percent-encoding of redirect URLs and the URL parser's verdict on `return_to`, which are a result field by field and a parameter.
- `created_at` and `updated_at` of domains and connections.
- Failure of AES-GCM itself under a 32-byte key.
- Requests whose path is percent-encoded or matched by anything but the literal route.
