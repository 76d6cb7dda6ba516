/**
  The act-token authority and the bearer-token path of the auth middleware as
  they run on one replica: a shared database object, two caches that are
  updated in place, and an outbox of invalidations handed to the broker. Each
  method is tied to the functions of `AgentStores`, about which the protocol
  modules prove their theorems.
 */
module AgentAuthority {
  import opened Wrappers
  import opened DbErrors
  import opened AgentStores
  import opened AuthTypes

  /** The tables every replica shares. */
  class AgentDatabase {
    var agents: map<string, AgentStores.Agent>
    var delegations: map<string, Delegation>
    var tokens: map<string, ActToken>

    function View(): Stores reads this {
      Stores(agents, delegations, tokens)
    }

    constructor ()
      ensures View() == Stores(map[], map[], map[])
    {
      agents, delegations, tokens := map[], map[], map[];
    }

    method SetAgentStatus(tenant: string, id: string, status: string) returns (res: Result<(), DbError>)
      modifies this
      ensures match SetStatus(old(View()), tenant, id, status)
              case Ok(st) => res.Ok? && View() == st
              case Err(error) => res == Err(error) && View() == old(View())
    {
      if id !in agents || agents[id].tenant != tenant {
        return Err(AgentNotFound);
      }
      agents := agents[id := agents[id].(status := status)];
      return Ok(());
    }

    method DeleteAgentRow(tenant: string, id: string) returns (res: Result<(), DbError>)
      modifies this
      ensures match DeleteAgent(old(View()), tenant, id)
              case Ok(st) => res.Ok? && View() == st
              case Err(error) => res == Err(error) && View() == old(View())
    {
      if id !in agents || agents[id].tenant != tenant {
        return Err(AgentNotFound);
      }
      agents := agents - {id};
      delegations := map d | d in delegations && delegations[d].agent != id :: delegations[d];
      tokens := map h | h in tokens && tokens[h].delegation in delegations :: tokens[h];
      return Ok(());
    }

    method RevokeDelegation(tenant: string, id: string, now: int) returns (res: Result<(), DbError>)
      modifies this
      ensures match Revoke(old(View()), tenant, id, now)
              case Ok(st) => res.Ok? && View() == st
              case Err(error) => res == Err(error) && View() == old(View())
    {
      if id !in delegations || delegations[id].tenant != tenant {
        return Err(AgentDelegationNotFound);
      }
      if delegations[id].revokedAt.None? {
        delegations := delegations[id := delegations[id].(revokedAt := Some(now))];
      }
      return Ok(());
    }

    method InsertTokenRow(hash: string, row: ActToken) returns (res: Result<(), DbError>)
      modifies this
      ensures match InsertToken(old(View()), hash, row)
              case Ok(st) => res.Ok? && View() == st
              case Err(error) => res == Err(error) && View() == old(View())
    {
      if hash in tokens || row.delegation !in delegations {
        return Err(ConstraintViolation);
      }
      tokens := tokens[hash := row];
      return Ok(());
    }
  }

  class AgentTokenAuthority {
    const db: AgentDatabase
    const hasBroker: bool
    const cacheTtl: int
    const actTokenTtl: int
    var actCache: ActCache
    var statusCache: StatusCache
    var outbox: seq<Invalidation>

    constructor (db: AgentDatabase, hasBroker: bool, cacheTtl: int, actTokenTtl: int)
      ensures this.db == db && this.hasBroker == hasBroker
      ensures this.cacheTtl == cacheTtl && this.actTokenTtl == actTokenTtl
      ensures actCache == map[] && statusCache == map[] && outbox == []
    {
      this.db, this.hasBroker, this.cacheTtl, this.actTokenTtl := db, hasBroker, cacheTtl, actTokenTtl;
      actCache, statusCache, outbox := map[], map[], [];
    }

    /**
      Mint against a grant row the caller has already read; `hash` is the fresh
      draw. The returned lifetime is the whole seconds left, none if it is over.
     */
    method Mint(hash: string, id: string, grant: Delegation, now: int) returns (res: Result<nat, DbError>)
      modifies db
      ensures match InsertToken(old(db.View()), hash, MintedRow(id, grant, now, actTokenTtl))
              case Err(error) => res == Err(error) && db.View() == old(db.View())
              case Ok(st) => res.Ok? && db.View() == st
      ensures res.Ok? ==>
                && hash in db.tokens && hash !in old(db.tokens) && id in db.delegations
                && db.agents == old(db.agents) && db.delegations == old(db.delegations)
                && (forall h | h in old(db.tokens) :: h in db.tokens && db.tokens[h] == old(db.tokens)[h])
                && var minted := db.tokens[hash];
                && minted.delegation == id && minted.tenant == grant.tenant && minted.agent == grant.agent
                && minted.user == grant.user && minted.scopes == grant.scopes
                && minted.expiresAt <= now + actTokenTtl && minted.expiresAt <= grant.expiresAt
                && minted.expiresAt in {now + actTokenTtl, grant.expiresAt}
                && (minted.expiresAt <= now ==> res.value == 0)
                && (minted.expiresAt > now ==>
                      res.value * NANOS_PER_SECOND <= minted.expiresAt - now < (res.value + 1) * NANOS_PER_SECOND)
    {
      var expiresAt := if now + actTokenTtl <= grant.expiresAt then now + actTokenTtl else grant.expiresAt;
      var inserted := db.InsertTokenRow(
        hash, ActToken(id, grant.tenant, grant.agent, grant.user, grant.scopes, expiresAt));
      if inserted.Err? {
        return Err(inserted.error);
      }
      var lifetime := if expiresAt <= now then 0 else (expiresAt - now) / NANOS_PER_SECOND;
      return Ok(lifetime);
    }

    method EvictDelegation(id: string)
      modifies this`actCache
      ensures actCache == EvictAct(old(actCache), OfDelegation(id))
    {
      actCache := map h | h in actCache &&
                          !(actCache[h].value.Some? && actCache[h].value.value.delegation == id) :: actCache[h];
    }

    method EvictAgent(id: string)
      modifies this`actCache, this`statusCache
      ensures actCache == EvictAct(old(actCache), OfAgent(id))
      ensures statusCache == EvictStatus(old(statusCache), OfAgent(id))
    {
      statusCache := statusCache - {id};
      actCache := map h | h in actCache &&
                          !(actCache[h].value.Some? && actCache[h].value.value.agent == id) :: actCache[h];
    }

    method InvalidateDelegation(id: string)
      modifies this
      ensures actCache == EvictAct(old(actCache), OfDelegation(id))
      ensures statusCache == EvictStatus(old(statusCache), OfDelegation(id))
      ensures outbox == old(outbox) + if hasBroker then [OfDelegation(id)] else []
    {
      EvictDelegation(id);
      if hasBroker {
        outbox := outbox + [OfDelegation(id)];
      }
    }

    method InvalidateAgent(id: string)
      modifies this
      ensures actCache == EvictAct(old(actCache), OfAgent(id))
      ensures statusCache == EvictStatus(old(statusCache), OfAgent(id))
      ensures outbox == old(outbox) + if hasBroker then [OfAgent(id)] else []
    {
      EvictAgent(id);
      if hasBroker {
        outbox := outbox + [OfAgent(id)];
      }
    }

    /** Apply a message from another replica; `None` is a payload that does not decode. */
    method HandleInvalidation(message: Option<Invalidation>)
      modifies this`actCache, this`statusCache
      ensures message.None? ==> actCache == old(actCache) && statusCache == old(statusCache)
      ensures message.Some? ==>
                && actCache == EvictAct(old(actCache), message.value)
                && statusCache == EvictStatus(old(statusCache), message.value)
    {
      match message
      case None =>
      case Some(OfDelegation(id)) => EvictDelegation(id);
      case Some(OfAgent(id)) => EvictAgent(id);
    }

    method ValidateActTokenRow(row: ActToken, now: int, up: Uptime) returns (res: Result<Option<Resolution>, DbError>)
      ensures res == ValidateRow(db.View(), row, now, up)
    {
      if row.expiresAt <= now { return Ok(None); }
      if !up.delegations { return Err(Unavailable); }
      if row.delegation !in db.delegations { return Ok(None); }
      var grant := db.delegations[row.delegation];
      if grant.revokedAt.Some? || grant.expiresAt <= now { return Ok(None); }
      if !up.agents { return Err(Unavailable); }
      if row.agent !in db.agents { return Ok(None); }
      if db.agents[row.agent].status != AGENT_STATUS_ACTIVE { return Ok(None); }
      return Ok(Some(Resolution(row.tenant, row.user, row.agent, row.delegation, row.scopes, row.expiresAt)));
    }

    method ResolveActToken(hash: string, now: int, up: Uptime) returns (res: Result<Option<Resolution>, DbError>)
      modifies this`actCache
      ensures (res, actCache) == Resolve(db.View(), old(actCache), hash, now, cacheTtl, up)
    {
      if hash in actCache && now < actCache[hash].at + cacheTtl {
        var entry := actCache[hash].value;
        if entry.Some? && !(entry.value.expiresAt > now) {
          return Ok(None);
        }
        return Ok(entry);
      }
      if !up.tokens {
        return Err(Unavailable);
      }
      if hash !in db.tokens {
        actCache := actCache[hash := Entry(None, now)];
        return Ok(None);
      }
      res := ValidateActTokenRow(db.tokens[hash], now, up);
      if res.Ok? {
        actCache := actCache[hash := Entry(res.value, now)];
      }
    }

    method AgentStatus(id: string, now: int, up: Uptime) returns (res: Result<Option<string>, DbError>)
      modifies this`statusCache
      ensures (res, statusCache) == ReadStatus(db.View(), old(statusCache), id, now, cacheTtl, up)
    {
      if id in statusCache && now < statusCache[id].at + cacheTtl {
        return Ok(statusCache[id].value);
      }
      if !up.agents {
        return Err(Unavailable);
      }
      var status := if id in db.agents then Some(db.agents[id].status) else None;
      statusCache := statusCache[id := Entry(status, now)];
      return Ok(status);
    }
  }

  /* ---- The bearer-token path of the middleware ---- */

  function RefusalOf(error: AuthError): Refusal {
    match error
    case IntrospectionFailed => ServiceUnavailable
    case Database => InternalServerError
    case UnknownSubject => Unauthorized
  }

  /** The middleware's answer with the two caches it leaves behind. */
  datatype Verdict = Verdict(answer: Result<AuthContext, Refusal>, act: ActCache, status: StatusCache)

  /**
    Authentication of a bearer token on values: act-token first, then
    introspection, subject lookup and, for a Hydra subject, the agent status.
    `installed` says whether an agent resolver is present.
   */
  function Authenticate(
    st: Stores, act: ActCache, status: StatusCache, installed: bool, hash: string,
    introspection: Result<IntrospectionResult, AuthError>, subject: Result<ResolvedSubject, AuthError>,
    now: int, ttl: int, up: Uptime): Verdict
  {
    var (resolved, act') :=
      if installed then Resolve(st, act, hash, now, ttl, up) else (Ok(None), act);
    match resolved
    case Err(_) => Verdict(Err(InternalServerError), act', status)
    case Ok(Some(res)) =>
      var actor := Some(Actor(res.agent, res.delegation));
      Verdict(Ok(AuthContext(res.tenant, res.user, User, actor, res.scopes, hash, [])), act', status)
    case Ok(None) =>
      if introspection.Err? then Verdict(Err(RefusalOf(introspection.error)), act', status)
      else if !introspection.value.active then Verdict(Err(Unauthorized), act', status)
      else if introspection.value.sub.None? then Verdict(Err(InternalServerError), act', status)
      else if subject.Err? then
        Verdict(Err(if subject.error == UnknownSubject then Unauthorized else InternalServerError), act', status)
      else
        var who := subject.value;
        var context := AuthContext(who.tenant, who.publicId, User, None, introspection.value.scope, hash,
                                   introspection.value.authenticationMethods);
        if who.backend == Kratos then Verdict(Ok(context), act', status)
        else if !installed then Verdict(Ok(context.(subjectType := Client)), act', status)
        else
          var (read, status') := ReadStatus(st, status, who.publicId, now, ttl, up);
          match read
          case Err(_) => Verdict(Err(InternalServerError), act', status')
          case Ok(None) => Verdict(Ok(context.(subjectType := Client)), act', status')
          case Ok(Some(s)) =>
            if s != AGENT_STATUS_ACTIVE then Verdict(Err(Unauthorized), act', status')
            else Verdict(Ok(context.(subjectType := SubjectType.Agent)), act', status')
  }

  function Installed(resolver: AgentTokenAuthority?): set<AgentTokenAuthority> {
    if resolver == null then {} else {resolver}
  }

  /** The same path as it runs; an installed resolver's caches are updated, an absent one is `null`. */
  method AuthenticateBearerToken(
    resolver: AgentTokenAuthority?, hash: string,
    introspection: Result<IntrospectionResult, AuthError>, subject: Result<ResolvedSubject, AuthError>,
    now: int, up: Uptime) returns (answer: Result<AuthContext, Refusal>)
    modifies Installed(resolver)`actCache, Installed(resolver)`statusCache
    ensures resolver != null ==>
              Verdict(answer, resolver.actCache, resolver.statusCache) ==
              Authenticate(resolver.db.View(), old(resolver.actCache), old(resolver.statusCache), true, hash,
                           introspection, subject, now, resolver.cacheTtl, up)
    ensures resolver == null ==>
              forall st, act, status, ttl ::
                Authenticate(st, act, status, false, hash, introspection, subject, now, ttl, up)
                == Verdict(answer, act, status)
  {
    if resolver != null {
      var resolved := resolver.ResolveActToken(hash, now, up);
      if resolved.Err? { return Err(InternalServerError); }
      if resolved.value.Some? {
        var res := resolved.value.value;
        var actor := Some(Actor(res.agent, res.delegation));
        return Ok(AuthContext(res.tenant, res.user, User, actor, res.scopes, hash, []));
      }
    }
    if introspection.Err? { return Err(RefusalOf(introspection.error)); }
    if !introspection.value.active { return Err(Unauthorized); }
    if introspection.value.sub.None? { return Err(InternalServerError); }
    if subject.Err? {
      return Err(if subject.error == UnknownSubject then Unauthorized else InternalServerError);
    }
    var who := subject.value;
    var subjectType := User;
    if who.backend == Hydra {
      subjectType := Client;
      if resolver != null {
        var read := resolver.AgentStatus(who.publicId, now, up);
        if read.Err? { return Err(InternalServerError); }
        if read.value.Some? && read.value.value != AGENT_STATUS_ACTIVE { return Err(Unauthorized); }
        subjectType := if read.value.Some? then SubjectType.Agent else Client;
      }
    }
    return Ok(AuthContext(who.tenant, who.publicId, subjectType, None, introspection.value.scope, hash,
                          introspection.value.authenticationMethods));
  }
}
