/**
  The three shared tables behind agent act-tokens (agents, delegation grants,
  minted tokens), the caches each replica keeps in front of them, and the
  functions that say what each operation does to them.

  Time is an integer number of nanoseconds. A bearer token is identified with
  its hash, since `hash_token` is taken to be injective.
 */
module AgentStores {
  import opened Wrappers
  import opened DbErrors

  const AGENT_STATUS_ACTIVE := "active"

  datatype Agent = Agent(tenant: string, status: string)

  datatype Delegation = Delegation(
    tenant: string,
    agent: string,
    user: string,
    scopes: seq<string>,
    expiresAt: int,
    revokedAt: Option<int>)

  datatype ActToken = ActToken(
    delegation: string,
    tenant: string,
    agent: string,
    user: string,
    scopes: seq<string>,
    expiresAt: int)

  /** Claims resolved from a valid act-token. */
  datatype Resolution = Resolution(
    tenant: string,
    user: string,
    agent: string,
    delegation: string,
    scopes: seq<string>,
    expiresAt: int)

  datatype Stores = Stores(
    agents: map<string, Agent>,
    delegations: map<string, Delegation>,
    tokens: map<string, ActToken>)

  /** Which tables answer during one call; a table that is down fails the read. */
  datatype Uptime = Uptime(tokens: bool, delegations: bool, agents: bool)

  const ALL_UP := Uptime(true, true, true)

  /* ---- Table operations ---- */

  function RegisterAgent(st: Stores, id: string, tenant: string): Stores {
    st.(agents := st.agents[id := Agent(tenant, AGENT_STATUS_ACTIVE)])
  }

  function SetStatus(st: Stores, tenant: string, id: string, status: string): Result<Stores, DbError> {
    if id in st.agents && st.agents[id].tenant == tenant then
      Ok(st.(agents := st.agents[id := st.agents[id].(status := status)]))
    else
      Err(AgentNotFound)
  }

  /** Deleting an agent cascades to its grants, and from those to their tokens. */
  function DeleteAgent(st: Stores, tenant: string, id: string): Result<Stores, DbError> {
    if id in st.agents && st.agents[id].tenant == tenant then
      var delegations := map d | d in st.delegations && st.delegations[d].agent != id :: st.delegations[d];
      var tokens := map h | h in st.tokens && st.tokens[h].delegation in delegations :: st.tokens[h];
      Ok(Stores(st.agents - {id}, delegations, tokens))
    else
      Err(AgentNotFound)
  }

  function CreateDelegation(st: Stores, id: string, row: Delegation): Result<Stores, DbError> {
    if row.agent in st.agents && id !in st.delegations then
      Ok(st.(delegations := st.delegations[id := row.(revokedAt := None)]))
    else
      Err(ConstraintViolation)
  }

  /** Revoking keeps the first revocation time, so a second revoke changes nothing. */
  function Revoke(st: Stores, tenant: string, id: string, now: int): Result<Stores, DbError> {
    if id in st.delegations && st.delegations[id].tenant == tenant then
      var row := st.delegations[id];
      var at := if row.revokedAt.Some? then row.revokedAt else Some(now);
      Ok(st.(delegations := st.delegations[id := row.(revokedAt := at)]))
    else
      Err(AgentDelegationNotFound)
  }

  function InsertToken(st: Stores, hash: string, row: ActToken): Result<Stores, DbError> {
    if hash !in st.tokens && row.delegation in st.delegations then
      Ok(st.(tokens := st.tokens[hash := row]))
    else
      Err(ConstraintViolation)
  }

  /** The row `mint` stores: it never outlives the grant it is minted against. */
  function MintedRow(id: string, grant: Delegation, now: int, tokenTtl: int): ActToken {
    var expiresAt := if now + tokenTtl <= grant.expiresAt then now + tokenTtl else grant.expiresAt;
    ActToken(id, grant.tenant, grant.agent, grant.user, grant.scopes, expiresAt)
  }

  /* ---- Validation against the tables ---- */

  function Claims(row: ActToken): Resolution {
    Resolution(row.tenant, row.user, row.agent, row.delegation, row.scopes, row.expiresAt)
  }

  function ValidateRow(st: Stores, row: ActToken, now: int, up: Uptime): Result<Option<Resolution>, DbError> {
    if row.expiresAt <= now then Ok(None)
    else if !up.delegations then Err(Unavailable)
    else if row.delegation !in st.delegations then Ok(None)
    else
      var grant := st.delegations[row.delegation];
      if grant.revokedAt.Some? || grant.expiresAt <= now then Ok(None)
      else if !up.agents then Err(Unavailable)
      else if row.agent !in st.agents then Ok(None)
      else if st.agents[row.agent].status != AGENT_STATUS_ACTIVE then Ok(None)
      else Ok(Some(Claims(row)))
  }

  /** What the tables alone say about a token: the answer with no cache in front. */
  function Fresh(st: Stores, hash: string, now: int): Option<Resolution> {
    if hash in st.tokens then ValidateRow(st, st.tokens[hash], now, ALL_UP).value else None
  }

  function StatusOf(st: Stores, id: string): Option<string> {
    if id in st.agents then Some(st.agents[id].status) else None
  }

  predicate Revoked(st: Stores, id: string) {
    id in st.delegations && st.delegations[id].revokedAt.Some?
  }

  predicate AgentActive(st: Stores, id: string) {
    StatusOf(st, id) == Some(AGENT_STATUS_ACTIVE)
  }

  /** A stored token copies its grant and never outlives it; a grant's agent exists. */
  ghost predicate Linked(st: Stores) {
    && (forall d | d in st.delegations :: st.delegations[d].agent in st.agents)
    && (forall h | h in st.tokens :: TokenLinked(st, st.tokens[h]))
  }

  ghost predicate TokenLinked(st: Stores, row: ActToken) {
    && row.delegation in st.delegations
    && var grant := st.delegations[row.delegation];
       row == ActToken(row.delegation, grant.tenant, grant.agent, grant.user, grant.scopes, row.expiresAt)
       && row.expiresAt <= grant.expiresAt
  }

  /** Two states of one grant, differing at most in its revocation. */
  ghost predicate SameTerms(a: Delegation, b: Delegation) {
    && a.tenant == b.tenant && a.agent == b.agent && a.user == b.user
    && a.scopes == b.scopes && a.expiresAt == b.expiresAt
  }

  /** The claims are those the grant was issued with, and do not outlive it. */
  ghost predicate ClaimsOf(res: Resolution, grant: Delegation) {
    && res.tenant == grant.tenant && res.user == grant.user && res.agent == grant.agent
    && res.scopes == grant.scopes && res.expiresAt <= grant.expiresAt
  }

  /* ---- Caches ---- */

  /** A cache entry with the time it was inserted; it is readable for one TTL. */
  datatype Entry<+V> = Entry(value: V, at: int)

  type ActCache = map<string, Entry<Option<Resolution>>>
  type StatusCache = map<string, Entry<Option<string>>>

  function Lookup<V>(cache: map<string, Entry<V>>, key: string, now: int, ttl: int): Option<V> {
    if key in cache && now < cache[key].at + ttl then Some(cache[key].value) else None
  }

  function Resolve(st: Stores, cache: ActCache, hash: string, now: int, ttl: int, up: Uptime)
    : (Result<Option<Resolution>, DbError>, ActCache)
  {
    match Lookup(cache, hash, now, ttl)
    case Some(entry) =>
      (Ok(if entry.Some? && entry.value.expiresAt > now then entry else None), cache)
    case None =>
      if !up.tokens then (Err(Unavailable), cache)
      else if hash !in st.tokens then (Ok(None), cache[hash := Entry(None, now)])
      else
        match ValidateRow(st, st.tokens[hash], now, up)
        case Ok(answer) => (Ok(answer), cache[hash := Entry(answer, now)])
        case Err(error) => (Err(error), cache)
  }

  function ReadStatus(st: Stores, cache: StatusCache, id: string, now: int, ttl: int, up: Uptime)
    : (Result<Option<string>, DbError>, StatusCache)
  {
    match Lookup(cache, id, now, ttl)
    case Some(entry) => (Ok(entry), cache)
    case None =>
      if !up.agents then (Err(Unavailable), cache)
      else (Ok(StatusOf(st, id)), cache[id := Entry(StatusOf(st, id), now)])
  }

  datatype Invalidation = OfDelegation(id: string) | OfAgent(id: string)

  /** Entries an invalidation drops. Negative entries always survive. */
  predicate Hit(message: Invalidation, value: Option<Resolution>) {
    value.Some? &&
    match message
    case OfDelegation(id) => value.value.delegation == id
    case OfAgent(id) => value.value.agent == id
  }

  ghost predicate NoneHit(cache: ActCache, message: Invalidation) {
    forall h | h in cache :: !Hit(message, cache[h].value)
  }

  function EvictAct(cache: ActCache, message: Invalidation): ActCache {
    map h | h in cache && !Hit(message, cache[h].value) :: cache[h]
  }

  function EvictStatus(cache: StatusCache, message: Invalidation): StatusCache {
    if message.OfAgent? then cache - {message.id} else cache
  }
}
