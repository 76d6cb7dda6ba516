/**
  What the writes to the agent tables do and, above all, what they leave alone:
  a tenant can change only its own rows.
 */
module AgentTables {
  import opened Wrappers
  import opened DbErrors
  import opened AgentStores

  /** A registered agent is active and its tenant's; every other row stays. */
  lemma RegisterAgentMeans(st: Stores, id: string, tenant: string)
    ensures var more := RegisterAgent(st, id, tenant);
            && id in more.agents && more.agents[id].tenant == tenant && AgentActive(more, id)
            && (forall b | b != id :: (b in more.agents <==> b in st.agents)
                                      && (b in st.agents ==> more.agents[b] == st.agents[b]))
            && more.delegations == st.delegations && more.tokens == st.tokens
  {
  }

  /** Only the agent of that tenant gets the status; every other row of all three tables stays. */
  lemma SetStatusMeans(st: Stores, tenant: string, id: string, status: string)
    ensures var r := SetStatus(st, tenant, id, status);
            && (r.Ok? <==> id in st.agents && st.agents[id].tenant == tenant)
            && (r.Err? ==> r.error == AgentNotFound)
            && (r.Ok? ==>
                  && r.value.agents.Keys == st.agents.Keys
                  && r.value.agents[id].tenant == tenant && r.value.agents[id].status == status
                  && (forall b | b in st.agents && b != id :: r.value.agents[b] == st.agents[b])
                  && r.value.delegations == st.delegations && r.value.tokens == st.tokens)
  {
  }

  /** Deleting an agent takes its grants and their tokens along and leaves all other rows. */
  lemma DeleteAgentMeans(st: Stores, tenant: string, id: string)
    requires Linked(st)
    ensures var r := DeleteAgent(st, tenant, id);
            && (r.Ok? <==> id in st.agents && st.agents[id].tenant == tenant)
            && (r.Err? ==> r.error == AgentNotFound)
            && (r.Ok? ==>
                  && (forall b :: b in r.value.agents <==> b in st.agents && b != id)
                  && (forall b | b in r.value.agents :: r.value.agents[b] == st.agents[b])
                  && (forall d :: d in r.value.delegations <==> d in st.delegations && st.delegations[d].agent != id)
                  && (forall d | d in r.value.delegations :: r.value.delegations[d] == st.delegations[d])
                  && (forall h :: h in r.value.tokens <==> h in st.tokens && st.tokens[h].agent != id)
                  && (forall h | h in r.value.tokens :: r.value.tokens[h] == st.tokens[h])
                  && Linked(r.value))
  {
    var r := DeleteAgent(st, tenant, id);
    if r.Ok? {
      forall h ensures h in r.value.tokens <==> h in st.tokens && st.tokens[h].agent != id {
        if h in st.tokens {
          assert TokenLinked(st, st.tokens[h]);
        }
      }
      forall h | h in r.value.tokens ensures TokenLinked(r.value, r.value.tokens[h]) {
        assert TokenLinked(st, st.tokens[h]);
      }
    }
  }

  /** A revocation marks the tenant's own grant, keeps its terms and its first time, and leaves all other rows. */
  lemma RevokeMeans(st: Stores, tenant: string, id: string, now: int)
    ensures var r := Revoke(st, tenant, id, now);
            && (r.Ok? <==> id in st.delegations && st.delegations[id].tenant == tenant)
            && (r.Err? ==> r.error == AgentDelegationNotFound)
            && (r.Ok? ==>
                  && Revoked(r.value, id) && r.value.delegations.Keys == st.delegations.Keys
                  && SameTerms(r.value.delegations[id], st.delegations[id])
                  && r.value.delegations[id].revokedAt
                     == (if Revoked(st, id) then st.delegations[id].revokedAt else Some(now))
                  && (forall d | d in st.delegations && d != id :: r.value.delegations[d] == st.delegations[d])
                  && r.value.agents == st.agents && r.value.tokens == st.tokens
                  && Revoke(r.value, tenant, id, now) == r)
  {
    var r := Revoke(st, tenant, id, now);
    if r.Ok? {
      assert r.value.delegations[id := r.value.delegations[id]] == r.value.delegations;
    }
  }

  /** A new grant is live, has the given terms, belongs to an existing agent, and replaces nothing. */
  lemma CreateDelegationMeans(st: Stores, id: string, row: Delegation)
    ensures var r := CreateDelegation(st, id, row);
            && (r.Ok? <==> row.agent in st.agents && id !in st.delegations)
            && (r.Ok? ==>
                  && id in r.value.delegations && !Revoked(r.value, id) && SameTerms(r.value.delegations[id], row)
                  && (forall d :: d in r.value.delegations <==> d in st.delegations || d == id)
                  && (forall d | d in st.delegations :: r.value.delegations[d] == st.delegations[d])
                  && r.value.agents == st.agents && r.value.tokens == st.tokens)
  {
  }

  /** A token row is added if its hash is new and its grant exists, and replaces nothing. */
  lemma InsertTokenMeans(st: Stores, hash: string, row: ActToken)
    ensures var r := InsertToken(st, hash, row);
            && (r.Ok? <==> hash !in st.tokens && row.delegation in st.delegations)
            && (r.Err? ==> r.error == ConstraintViolation)
            && (r.Ok? ==>
                  && hash in r.value.tokens && r.value.tokens[hash] == row
                  && (forall h :: h in r.value.tokens <==> h in st.tokens || h == hash)
                  && (forall h | h in st.tokens :: r.value.tokens[h] == st.tokens[h])
                  && r.value.agents == st.agents && r.value.delegations == st.delegations)
  {
  }

  /** A minted row is the grant's, and expires at the earlier of the grant's expiry and one token lifetime from now. */
  lemma MintedRowMeans(id: string, grant: Delegation, now: int, tokenTtl: int)
    ensures var row := MintedRow(id, grant, now, tokenTtl);
            && row.delegation == id && row.tenant == grant.tenant && row.agent == grant.agent
            && row.user == grant.user && row.scopes == grant.scopes
            && row.expiresAt <= grant.expiresAt && row.expiresAt <= now + tokenTtl
            && (row.expiresAt == grant.expiresAt || row.expiresAt == now + tokenTtl)
  {
  }

  /**
    Validation against the tables, read off them: it succeeds exactly for an
    unexpired token of a live grant of an active agent, with the token's own
    fields as claims, and fails exactly when a table it still needs is down.
   */
  lemma ValidateRowMeans(st: Stores, row: ActToken, now: int, up: Uptime)
    ensures var r := ValidateRow(st, row, now, up);
            var live := row.delegation in st.delegations && !Revoked(st, row.delegation)
                        && now < st.delegations[row.delegation].expiresAt;
            && (r.Err? <==> now < row.expiresAt && (!up.delegations || (live && !up.agents)))
            && (r.Ok? ==> (r.value.Some? <==> now < row.expiresAt && live && AgentActive(st, row.agent)))
            && (r.Ok? && r.value.Some? ==>
                  var res := r.value.value;
                  && res.tenant == row.tenant && res.user == row.user && res.agent == row.agent
                  && res.delegation == row.delegation && res.scopes == row.scopes && res.expiresAt == row.expiresAt)
  {
  }

  /** An eviction drops the positive entries of its grant or agent, and nothing else from either cache. */
  lemma EvictionIsExact(act: ActCache, status: StatusCache, m: Invalidation, key: string)
    ensures key in EvictAct(act, m) <==>
            key in act && (act[key].value.None? ||
                           m.id != (if m.OfAgent? then act[key].value.value.agent else act[key].value.value.delegation))
    ensures key in EvictAct(act, m) ==> EvictAct(act, m)[key] == act[key]
    ensures key in EvictStatus(status, m) <==> key in status && m != OfAgent(key)
    ensures key in EvictStatus(status, m) ==> EvictStatus(status, m)[key] == status[key]
  {
  }

  /* ---- What a read leaves in its cache ---- */

  /** A successful status read is in the cache, from now on if it had to ask the table; a failed one changes nothing. */
  lemma StatusIsCached(st: Stores, cache: StatusCache, id: string, now: int, ttl: int, up: Uptime, other: string)
    ensures var (answer, cache') := ReadStatus(st, cache, id, now, ttl, up);
            && (answer.Err? ==> cache' == cache && !up.agents)
            && (answer.Ok? ==> id in cache' && cache'[id].value == answer.value)
            && (answer.Ok? && Lookup(cache, id, now, ttl).None? ==>
                  cache'[id].at == now && answer.value == StatusOf(st, id))
            && (Lookup(cache, id, now, ttl).Some? ==> cache' == cache)
            && (other != id ==>
                  (other in cache' <==> other in cache) && (other in cache ==> cache'[other] == cache[other]))
  {
  }

  /** So within one TTL of a read that asked the table the same status is answered, whatever the table then says. */
  lemma StatusIsRepeated(st: Stores, cache: StatusCache, id: string, now: int, ttl: int, up: Uptime,
                         later: Stores, then_: int, down: Uptime)
    requires Lookup(cache, id, now, ttl).None? && ReadStatus(st, cache, id, now, ttl, up).0.Ok?
    requires now <= then_ < now + ttl
    ensures var (answer, cache') := ReadStatus(st, cache, id, now, ttl, up);
            ReadStatus(later, cache', id, then_, ttl, down) == (answer, cache')
  {
  }

  /** The same for token answers, which moreover stop at the token's own expiry. */
  lemma AnswerIsRepeated(st: Stores, cache: ActCache, hash: string, now: int, ttl: int, up: Uptime,
                         later: Stores, then_: int, down: Uptime)
    requires Lookup(cache, hash, now, ttl).None? && Resolve(st, cache, hash, now, ttl, up).0.Ok?
    requires now <= then_ < now + ttl
    ensures var (answer, cache') := Resolve(st, cache, hash, now, ttl, up);
            && answer.value == Fresh(st, hash, now)
            && Resolve(later, cache', hash, then_, ttl, down).1 == cache'
            && Resolve(later, cache', hash, then_, ttl, down).0
               == Ok(if answer.value.Some? && then_ < answer.value.value.expiresAt then answer.value else None)
  {
  }

  /* ---- Tenants ---- */

  /** The rows of a tenant in `before` are all there, as they were, in `after`. */
  ghost predicate TenantKept(before: Stores, after: Stores, tenant: string) {
    && (forall a | a in before.agents && before.agents[a].tenant == tenant ::
          a in after.agents && after.agents[a] == before.agents[a])
    && (forall d | d in before.delegations && OwnGrant(before, d, tenant) ::
          d in after.delegations && after.delegations[d] == before.delegations[d])
    && (forall h | h in before.tokens && OwnGrant(before, before.tokens[h].delegation, tenant) ::
          h in after.tokens && after.tokens[h] == before.tokens[h])
  }

  /** A grant of the tenant on one of the tenant's own agents. */
  ghost predicate OwnGrant(st: Stores, d: string, tenant: string) {
    && d in st.delegations && st.delegations[d].tenant == tenant
    && st.delegations[d].agent in st.agents && st.agents[st.delegations[d].agent].tenant == tenant
  }

  lemma StatusKeepsTenant(st: Stores, writer: string, id: string, status: string, tenant: string)
    requires writer != tenant
    ensures var r := SetStatus(st, writer, id, status); r.Ok? ==> TenantKept(st, r.value, tenant)
  {
    SetStatusMeans(st, writer, id, status);
  }

  lemma RevokeKeepsTenant(st: Stores, writer: string, id: string, now: int, tenant: string)
    requires writer != tenant
    ensures var r := Revoke(st, writer, id, now); r.Ok? ==> TenantKept(st, r.value, tenant)
  {
    RevokeMeans(st, writer, id, now);
  }

  lemma DeleteKeepsTenant(st: Stores, writer: string, id: string, tenant: string)
    requires writer != tenant && Linked(st)
    ensures var r := DeleteAgent(st, writer, id); r.Ok? ==> TenantKept(st, r.value, tenant)
  {
    DeleteAgentMeans(st, writer, id);
    forall h | h in st.tokens ensures st.tokens[h].agent == st.delegations[st.tokens[h].delegation].agent {
      assert TokenLinked(st, st.tokens[h]);
    }
  }

  lemma GrowthKeepsTenant(st: Stores, more: Stores, tenant: string)
    requires forall a | a in st.agents :: a in more.agents && more.agents[a] == st.agents[a]
    requires forall d | d in st.delegations :: d in more.delegations && more.delegations[d] == st.delegations[d]
    requires forall h | h in st.tokens :: h in more.tokens && more.tokens[h] == st.tokens[h]
    ensures TenantKept(st, more, tenant)
  {
  }

  lemma TenantKeptTwice(a: Stores, b: Stores, c: Stores, tenant: string)
    requires Linked(a) && Linked(b) && TenantKept(a, b, tenant) && TenantKept(b, c, tenant)
    ensures TenantKept(a, c, tenant)
  {
    forall d | d in a.delegations && OwnGrant(a, d, tenant) ensures OwnGrant(b, d, tenant) {
    }
  }
}
