/** What every run of the one-step protocol keeps, and what its answers mean. */
module AtomicTheorems {
  import opened Wrappers
  import opened AgentStores
  import opened AuthTypes
  import opened AgentAuthority
  import opened AgentTables
  import AuthPaths
  import opened AtomicProtocol

  /* ---- Every step keeps the invariant ---- */

  /** A change of tables that keeps every cached entry explained and covered. */
  ghost predicate TableStep(w: World, v: World) {
    && w.now <= v.now && w.ids <= v.ids && w.hashes <= v.hashes && v.replicas == w.replicas
    && w.owed <= v.owed && w.flying <= v.flying && w.lost <= v.lost
    && (forall before: Stores, h | Descends(before, w.st, w.ids, h) && h in w.hashes ::
          Descends(before, v.st, v.ids, h))
    && (forall id | id in w.ids && StatusOf(w.st, id) != StatusOf(v.st, id) ::
          exists writer: nat :: (writer, OfAgent(id)) in v.owed)
    && (forall id | id in w.ids && Revoked(v.st, id) && !Revoked(w.st, id) ::
          exists writer: nat :: (writer, OfDelegation(id)) in v.owed)
  }

  lemma TableStepKeepsReplica(w: World, v: World, r: nat, rep: Replica)
    requires TableStep(w, v) && ReplicaInv(w, r, rep)
    ensures ReplicaInv(v, r, rep)
  {
    forall h | h in rep.act
      ensures EntryOk(v, rep.act[h], rep.origin[h], h) && EntryCovered(v, r, rep.act[h].value)
    {
      assert EntryOk(w, rep.act[h], rep.origin[h], h) && EntryCovered(w, r, rep.act[h].value);
    }
    forall id | id in rep.status
      ensures StatusCovered(v, r, id, rep.status[id].value)
    {
      assert StatusCovered(w, r, id, rep.status[id].value);
    }
  }

  lemma TableStepKeepsInv(w: World, v: World)
    requires Inv(w) && TableStep(w, v) && Linked(v.st)
    requires v.st.agents.Keys <= v.ids && v.st.delegations.Keys <= v.ids && v.st.tokens.Keys <= v.hashes
    ensures Inv(v)
  {
    forall r | 0 <= r < |v.replicas|
      ensures ReplicaInv(v, r, v.replicas[r])
    {
      assert ReplicaInv(w, r, w.replicas[r]);
      TableStepKeepsReplica(w, v, r, w.replicas[r]);
    }
  }

  lemma RegisterKeepsInv(cfg: Config, w: World, id: string, tenant: string)
    requires Inv(w)
    ensures Inv(Step(cfg, w, Register(id, tenant)))
  {
    if id !in w.ids {
      TableStepKeepsInv(w, Step(cfg, w, Register(id, tenant)));
    }
  }

  lemma GrantKeepsInv(cfg: Config, w: World, id: string, row: Delegation)
    requires Inv(w)
    ensures Inv(Step(cfg, w, Grant(id, row)))
  {
    if id !in w.ids && CreateDelegation(w.st, id, row).Ok? {
      TableStepKeepsInv(w, Step(cfg, w, Grant(id, row)));
    }
  }

  lemma MintKeepsInv(cfg: Config, w: World, hash: string, id: string)
    requires Inv(w)
    ensures Inv(Step(cfg, w, Mint(hash, id)))
  {
    if hash !in w.hashes && id in w.st.delegations {
      TableStepKeepsInv(w, Step(cfg, w, Mint(hash, id)));
    }
  }

  lemma RevokeKeepsInv(cfg: Config, w: World, r: nat, tenant: string, id: string)
    requires Inv(w)
    ensures Inv(Step(cfg, w, RevokeGrant(r, tenant, id)))
  {
    if Revoke(w.st, tenant, id, w.now).Ok? {
      var v := Step(cfg, w, RevokeGrant(r, tenant, id));
      assert (r, OfDelegation(id)) in v.owed;
      TableStepKeepsInv(w, v);
    }
  }

  lemma StatusKeepsInv(cfg: Config, w: World, r: nat, tenant: string, id: string, status: string)
    requires Inv(w)
    ensures Inv(Step(cfg, w, ChangeStatus(r, tenant, id, status)))
  {
    if SetStatus(w.st, tenant, id, status).Ok? {
      var v := Step(cfg, w, ChangeStatus(r, tenant, id, status));
      assert (r, OfAgent(id)) in v.owed;
      TableStepKeepsInv(w, v);
    }
  }

  lemma RemoveKeepsInv(cfg: Config, w: World, r: nat, tenant: string, id: string)
    requires Inv(w)
    ensures Inv(Step(cfg, w, RemoveAgent(r, tenant, id)))
  {
    if DeleteAgent(w.st, tenant, id).Ok? {
      var v := Step(cfg, w, RemoveAgent(r, tenant, id));
      assert (r, OfAgent(id)) in v.owed;
      TableStepKeepsInv(w, v);
    }
  }

  lemma TickKeepsInv(cfg: Config, w: World, elapsed: nat)
    requires Inv(w)
    ensures Inv(Step(cfg, w, Tick(elapsed)))
  {
    TableStepKeepsInv(w, Step(cfg, w, Tick(elapsed)));
  }

  lemma ReplaceReplica(w: World, r: nat, rep: Replica, ids: set<string>, hashes: set<string>)
    requires Inv(w) && r < |w.replicas| && w.ids <= ids && w.hashes <= hashes
    requires ReplicaInv(w.(ids := ids, hashes := hashes), r, rep)
    ensures Inv(w.(replicas := w.replicas[r := rep], ids := ids, hashes := hashes))
  {
    var known := w.(ids := ids, hashes := hashes);
    TableStepKeepsInv(w, known);
    var v := known.(replicas := w.replicas[r := rep]);
    forall q | 0 <= q < |v.replicas|
      ensures ReplicaInv(v, q, v.replicas[q])
    {
      var theirs := v.replicas[q];
      assert ReplicaInv(known, q, theirs);
      assert forall h | h in theirs.act :: EntryOk(known, theirs.act[h], theirs.origin[h], h)
                                           && EntryCovered(known, q, theirs.act[h].value);
      assert forall id | id in theirs.status :: StatusCovered(known, q, id, theirs.status[id].value);
    }
  }

  /** A resolve that reaches the tables answers, and caches, exactly what they say. */
  lemma MissIsFresh(st: Stores, cache: ActCache, hash: string, now: int, ttl: int, up: Uptime)
    requires Lookup(cache, hash, now, ttl).None?
    ensures var (answer, cache') := Resolve(st, cache, hash, now, ttl, up);
            answer.Ok? ==> answer.value == Fresh(st, hash, now) && cache' == cache[hash := Entry(answer.value, now)]
  {
  }

  lemma ResolveKeepsReplica(cfg: Config, w: World, r: nat, rep: Replica, hash: string, up: Uptime)
    requires Inv(w) && ReplicaInv(w, r, rep) && hash in w.hashes
    ensures ReplicaInv(w, r, Remember(rep, Resolve(w.st, rep.act, hash, w.now, cfg.cacheTtl, up).1, hash, w.st))
  {
    var (answer, act) := Resolve(w.st, rep.act, hash, w.now, cfg.cacheTtl, up);
    if act != rep.act {
      MissIsFresh(w.st, rep.act, hash, w.now, cfg.cacheTtl, up);
      var rep' := Remember(rep, act, hash, w.st);
      assert EntryOk(w, act[hash], w.st, hash);
      assert EntryCovered(w, r, act[hash].value);
      forall h | h in rep'.act
        ensures EntryOk(w, rep'.act[h], rep'.origin[h], h) && EntryCovered(w, r, rep'.act[h].value)
      {
        if h != hash {
          assert EntryOk(w, rep.act[h], rep.origin[h], h) && EntryCovered(w, r, rep.act[h].value);
        }
      }
    }
  }

  lemma StatusKeepsReplica(cfg: Config, w: World, r: nat, rep: Replica, id: string, up: Uptime)
    requires ReplicaInv(w, r, rep) && id in w.ids
    ensures ReplicaInv(w, r, rep.(status := ReadStatus(w.st, rep.status, id, w.now, cfg.cacheTtl, up).1))
  {
    var rep' := rep.(status := ReadStatus(w.st, rep.status, id, w.now, cfg.cacheTtl, up).1);
    forall k | k in rep'.status
      ensures StatusCovered(w, r, k, rep'.status[k].value)
    {
      if k != id {
        assert StatusCovered(w, r, k, rep.status[k].value);
      }
    }
  }

  /** The replica's entries survive the growth of the known ids and hashes. */
  lemma KnownKeepsReplica(w: World, r: nat, ids: set<string>, hashes: set<string>)
    requires Inv(w) && r < |w.replicas| && w.ids <= ids && w.hashes <= hashes
    ensures Inv(w.(ids := ids, hashes := hashes))
    ensures ReplicaInv(w.(ids := ids, hashes := hashes), r, w.replicas[r])
  {
    TableStepKeepsInv(w, w.(ids := ids, hashes := hashes));
  }

  lemma ResolveKeepsInv(cfg: Config, w: World, r: nat, hash: string, up: Uptime)
    requires Inv(w)
    ensures Inv(Step(cfg, w, ResolveToken(r, hash, up)))
  {
    if r < |w.replicas| {
      var hashes := w.hashes + {hash};
      KnownKeepsReplica(w, r, w.ids, hashes);
      ResolveKeepsReplica(cfg, w.(hashes := hashes), r, w.replicas[r], hash, up);
      var act := Resolve(w.st, w.replicas[r].act, hash, w.now, cfg.cacheTtl, up).1;
      ReplaceReplica(w, r, Remember(w.replicas[r], act, hash, w.st), w.ids, hashes);
    }
  }

  lemma AskKeepsInv(cfg: Config, w: World, r: nat, id: string, up: Uptime)
    requires Inv(w)
    ensures Inv(Step(cfg, w, AskStatus(r, id, up)))
  {
    if r < |w.replicas| {
      var ids := w.ids + {id};
      KnownKeepsReplica(w, r, ids, w.hashes);
      StatusKeepsReplica(cfg, w.(ids := ids), r, w.replicas[r], id, up);
      var status := ReadStatus(w.st, w.replicas[r].status, id, w.now, cfg.cacheTtl, up).1;
      ReplaceReplica(w, r, w.replicas[r].(status := status), ids, w.hashes);
    }
  }

  /** A login leaves the caches as a resolve, followed at most by a status read, leaves them. */
  lemma LoginEffect(
    cfg: Config, w: World, rep: Replica, hash: string, introspection: Result<IntrospectionResult, AuthError>,
    subject: Result<ResolvedSubject, AuthError>, up: Uptime)
    ensures var v := Authenticate(
              w.st, rep.act, rep.status, true, hash, introspection, subject, w.now, cfg.cacheTtl, up);
            && v.act == Resolve(w.st, rep.act, hash, w.now, cfg.cacheTtl, up).1
            && (v.status == rep.status ||
                (introspection.Ok? && subject.Ok? &&
                 v.status == ReadStatus(w.st, rep.status, subject.value.publicId, w.now, cfg.cacheTtl, up).1))
  {
  }

  lemma LoginKeepsInv(
    cfg: Config, w: World, r: nat, hash: string, introspection: Result<IntrospectionResult, AuthError>,
    subject: Result<ResolvedSubject, AuthError>, up: Uptime)
    requires Inv(w)
    ensures Inv(Step(cfg, w, Login(r, hash, introspection, subject, up)))
  {
    if r < |w.replicas| {
      var rep := w.replicas[r];
      var v := Authenticate(w.st, rep.act, rep.status, true, hash, introspection, subject, w.now, cfg.cacheTtl, up);
      LoginEffect(cfg, w, rep, hash, introspection, subject, up);
      var ids, hashes := w.ids + Asked(introspection, subject), w.hashes + {hash};
      var known := w.(ids := ids, hashes := hashes);
      KnownKeepsReplica(w, r, ids, hashes);
      ResolveKeepsReplica(cfg, known, r, rep, hash, up);
      var rep' := Remember(rep, v.act, hash, w.st);
      if v.status != rep.status {
        StatusKeepsReplica(cfg, known, r, rep', subject.value.publicId, up);
      }
      ReplaceReplica(w, r, rep'.(status := v.status), ids, hashes);
    }
  }

  /** Eviction removes exactly the entries that needed this message, so its cover may go. */
  lemma EvictKeepsReplica(w: World, v: World, r: nat, rep: Replica, message: Invalidation)
    requires ReplicaInv(w, r, rep)
    requires v.now == w.now && v.st == w.st && v.ids == w.ids && v.hashes == w.hashes
    requires forall m | m != message && Covered(w, r, m) :: Covered(v, r, m)
    ensures ReplicaInv(v, r, Evict(rep, message))
  {
    var rep' := Evict(rep, message);
    forall h | h in rep'.act
      ensures EntryOk(v, rep'.act[h], rep'.origin[h], h) && EntryCovered(v, r, rep'.act[h].value)
    {
      assert EntryOk(w, rep.act[h], rep.origin[h], h) && EntryCovered(w, r, rep.act[h].value);
    }
    forall id | id in rep'.status
      ensures StatusCovered(v, r, id, rep'.status[id].value)
    {
      assert StatusCovered(w, r, id, rep.status[id].value);
    }
  }

  lemma CoverKeepsReplica(w: World, v: World, r: nat, rep: Replica)
    requires ReplicaInv(w, r, rep)
    requires v.now == w.now && v.st == w.st && v.ids == w.ids && v.hashes == w.hashes
    requires forall m | Covered(w, r, m) :: Covered(v, r, m)
    ensures ReplicaInv(v, r, rep)
  {
    forall h | h in rep.act
      ensures EntryOk(v, rep.act[h], rep.origin[h], h) && EntryCovered(v, r, rep.act[h].value)
    {
      assert EntryOk(w, rep.act[h], rep.origin[h], h) && EntryCovered(w, r, rep.act[h].value);
    }
    forall id | id in rep.status
      ensures StatusCovered(v, r, id, rep.status[id].value)
    {
      assert StatusCovered(w, r, id, rep.status[id].value);
    }
  }

  lemma InvalidateKeepsInv(cfg: Config, w: World, r: nat, message: Invalidation)
    requires Inv(w)
    ensures Inv(Step(cfg, w, Invalidate(r, message)))
  {
    if r < |w.replicas| {
      var v := Step(cfg, w, Invalidate(r, message));
      forall q: nat | q < |v.replicas|
        ensures ReplicaInv(v, q, v.replicas[q])
      {
        if q == r {
          EvictKeepsReplica(w, v, r, w.replicas[r], message);
        } else {
          assert (q, message) in Others(w, r, message);
          CoverKeepsReplica(w, v, q, w.replicas[q]);
        }
      }
    }
  }

  lemma DeliverKeepsInv(cfg: Config, w: World, r: nat, message: Invalidation)
    requires Inv(w)
    ensures Inv(Step(cfg, w, Deliver(r, message)))
  {
    if r < |w.replicas| {
      var v := Step(cfg, w, Deliver(r, message));
      forall q: nat | q < |v.replicas|
        ensures ReplicaInv(v, q, v.replicas[q])
      {
        if q == r {
          EvictKeepsReplica(w, v, r, w.replicas[r], message);
        } else {
          CoverKeepsReplica(w, v, q, w.replicas[q]);
        }
      }
    }
  }

  lemma LoseKeepsInv(cfg: Config, w: World, r: nat, message: Invalidation)
    requires Inv(w)
    ensures Inv(Step(cfg, w, Lose(r, message)))
  {
    var v := Step(cfg, w, Lose(r, message));
    forall q: nat | q < |v.replicas|
      ensures ReplicaInv(v, q, v.replicas[q])
    {
      CoverKeepsReplica(w, v, q, w.replicas[q]);
    }
  }

  lemma StepKeepsInv(cfg: Config, w: World, e: Event)
    requires Inv(w)
    ensures Inv(Step(cfg, w, e))
  {
    match e
    case Tick(elapsed) => TickKeepsInv(cfg, w, elapsed);
    case Register(id, tenant) => RegisterKeepsInv(cfg, w, id, tenant);
    case Grant(id, row) => GrantKeepsInv(cfg, w, id, row);
    case Mint(hash, id) => MintKeepsInv(cfg, w, hash, id);
    case ResolveToken(r, hash, up) => ResolveKeepsInv(cfg, w, r, hash, up);
    case AskStatus(r, id, up) => AskKeepsInv(cfg, w, r, id, up);
    case Login(r, hash, introspection, subject, up) => LoginKeepsInv(cfg, w, r, hash, introspection, subject, up);
    case RevokeGrant(r, tenant, id) => RevokeKeepsInv(cfg, w, r, tenant, id);
    case ChangeStatus(r, tenant, id, status) => StatusKeepsInv(cfg, w, r, tenant, id, status);
    case RemoveAgent(r, tenant, id) => RemoveKeepsInv(cfg, w, r, tenant, id);
    case Invalidate(r, message) => InvalidateKeepsInv(cfg, w, r, message);
    case Deliver(r, message) => DeliverKeepsInv(cfg, w, r, message);
    case Lose(r, message) => LoseKeepsInv(cfg, w, r, message);
  }

  lemma {:induction false} RunKeepsInv(cfg: Config, w: World, es: seq<Event>)
    requires Inv(w)
    ensures Inv(Run(cfg, w, es))
    decreases es
  {
    if es != [] {
      StepKeepsInv(cfg, w, es[0]);
      RunKeepsInv(cfg, Step(cfg, w, es[0]), es[1..]);
    }
  }

  lemma ReachableInv(cfg: Config, w: World)
    requires Reachable(cfg, w)
    ensures Inv(w)
  {
    var n: nat, now: int, es: seq<Event> :| w == Run(cfg, Initial(n, now), es);
    RunKeepsInv(cfg, Initial(n, now), es);
  }

  /* ---- When a cached answer differs from the tables ---- */

  ghost predicate Readable<V>(cfg: Config, w: World, cache: map<string, Entry<V>>, key: string) {
    key in cache && w.now < cache[key].at + cfg.cacheTtl
  }

  /** A readable positive entry whose grant has been revoked or whose agent is no longer active. */
  ghost predicate StalePositive(cfg: Config, w: World, r: nat, h: string)
    requires r < |w.replicas|
  {
    var act := w.replicas[r].act;
    && Readable(cfg, w, act, h) && act[h].value.Some?
    && var res := act[h].value.value;
       w.now < res.expiresAt && (!AgentActive(w.st, res.agent) || Revoked(w.st, res.delegation))
  }

  /** A readable negative entry for an unexpired token whose grant is live and whose agent is active. */
  ghost predicate StaleNegative(cfg: Config, w: World, r: nat, h: string)
    requires r < |w.replicas|
  {
    var act := w.replicas[r].act;
    && Readable(cfg, w, act, h) && act[h].value.None? && h in w.st.tokens
    && var row := w.st.tokens[h];
       w.now < row.expiresAt && AgentActive(w.st, row.agent) && !Revoked(w.st, row.delegation)
  }

  /**
    In every reachable world a resolve disagrees with the tables exactly when it
    meets one of the two stale entries above.
   */
  lemma DisagreesIffStale(cfg: Config, w: World, r: nat, h: string, up: Uptime)
    requires Reachable(cfg, w) && r < |w.replicas|
    requires Observe(cfg, w, ResolveToken(r, h, up)).answer.Ok?
    ensures Observe(cfg, w, ResolveToken(r, h, up)).answer.value != Fresh(w.st, h, w.now)
            <==> StalePositive(cfg, w, r, h) || StaleNegative(cfg, w, r, h)
  {
    ReachableInv(cfg, w);
    assert ReplicaInv(w, r, w.replicas[r]);
    var act := w.replicas[r].act;
    if Readable(cfg, w, act, h) {
      assert EntryOk(w, act[h], w.replicas[r].origin[h], h);
    } else {
      MissIsFresh(w.st, act, h, w.now, cfg.cacheTtl, up);
    }
  }

  /** A stale positive is always younger than the TTL and covered by an unapplied invalidation. */
  lemma StalePositiveIsAccountedFor(cfg: Config, w: World, r: nat, h: string)
    requires Reachable(cfg, w) && r < |w.replicas| && StalePositive(cfg, w, r, h)
    ensures var entry := w.replicas[r].act[h];
            var res := entry.value.value;
            && 0 <= w.now - entry.at < cfg.cacheTtl
            && h in w.replicas[r].origin && Fresh(w.replicas[r].origin[h], h, entry.at) == Some(res)
            && (!AgentActive(w.st, res.agent) ==> Covered(w, r, OfAgent(res.agent)))
            && (Revoked(w.st, res.delegation) ==> Covered(w, r, OfDelegation(res.delegation)))
  {
    ReachableInv(cfg, w);
    assert ReplicaInv(w, r, w.replicas[r]);
    var rep := w.replicas[r];
    assert EntryOk(w, rep.act[h], rep.origin[h], h) && EntryCovered(w, r, rep.act[h].value);
  }

  /**
    A stale negative is younger than the TTL, and its one possible cause is that
    the agent was registered but not active when the answer was cached.
   */
  lemma StaleNegativeWasDisabled(cfg: Config, w: World, r: nat, h: string)
    requires Reachable(cfg, w) && r < |w.replicas| && StaleNegative(cfg, w, r, h)
    ensures var entry := w.replicas[r].act[h];
            var agent := w.st.tokens[h].agent;
            && 0 <= w.now - entry.at < cfg.cacheTtl
            && h in w.replicas[r].origin
            && var then_ := w.replicas[r].origin[h];
            && agent in then_.agents && then_.agents[agent].status != AGENT_STATUS_ACTIVE
            && h in then_.tokens && then_.tokens[h] == w.st.tokens[h]
  {
    ReachableInv(cfg, w);
    assert ReplicaInv(w, r, w.replicas[r]);
    var rep := w.replicas[r];
    assert EntryOk(w, rep.act[h], rep.origin[h], h);
    var row := w.st.tokens[h];
    assert TokenLinked(w.st, row) && TokenLinked(rep.origin[h], row);
  }

  /** Message `m` is about the agent `key`, or about the grant or the agent of the answer cached for the token `key`. */
  ghost predicate Concerns(rep: Replica, m: Invalidation, key: string) {
    || m == OfAgent(key)
    || (key in rep.act && Hit(m, rep.act[key].value))
  }

  /** With no invalidation outstanding that concerns a key, the replica's positive and status entries for it
      are exact. */
  lemma CaughtUpReplicaIsExact(cfg: Config, w: World, r: nat, key: string)
    requires Reachable(cfg, w) && r < |w.replicas|
    requires forall m | Concerns(w.replicas[r], m, key) :: !Covered(w, r, m)
    ensures !StalePositive(cfg, w, r, key)
    ensures key in w.replicas[r].status ==> w.replicas[r].status[key].value == StatusOf(w.st, key)
  {
    ReachableInv(cfg, w);
    var rep := w.replicas[r];
    assert ReplicaInv(w, r, rep);
    if key in rep.act {
      assert EntryCovered(w, r, rep.act[key].value);
      if rep.act[key].value.Some? {
        var res := rep.act[key].value.value;
        assert Concerns(rep, OfAgent(res.agent), key) && Concerns(rep, OfDelegation(res.delegation), key);
      }
    }
    if key in rep.status {
      assert StatusCovered(w, r, key, rep.status[key].value);
      assert Concerns(rep, OfAgent(key), key);
    }
  }

  /**
    Applying an invalidation settles it: the replica no longer counts it as
    lost or in flight, so what covers it afterwards can only be another write
    that still owes its call.
   */
  lemma AppliedIsSettled(cfg: Config, w: World, r: nat, m: Invalidation, local: bool)
    requires r < |w.replicas|
    ensures var v := Step(cfg, w, if local then Invalidate(r, m) else Deliver(r, m));
            && (r, m) !in v.lost
            && (Covered(v, r, m) ==> (local && (r, m) in w.flying) || exists writer: nat :: (writer, m) in w.owed)
            && NoneHit(v.replicas[r].act, m)
  {
    var v := Step(cfg, w, if local then Invalidate(r, m) else Deliver(r, m));
    if writer: nat :| (writer, m) in v.owed {
      assert (writer, m) in w.owed;
    }
    assert (r, m) !in Others(w, r, m);
  }

  /** A served token is served before its own expiry and before its grant's, even on a cache hit. */
  lemma ServedBeforeGrantExpires(cfg: Config, w: World, r: nat, h: string, up: Uptime)
    requires Reachable(cfg, w) && r < |w.replicas|
    requires var answer := Observe(cfg, w, ResolveToken(r, h, up)).answer;
             answer.Ok? && answer.value.Some?
    ensures var res := Observe(cfg, w, ResolveToken(r, h, up)).answer.value.value;
            && w.now < res.expiresAt
            && (res.delegation in w.st.delegations ==>
                  res.expiresAt <= w.st.delegations[res.delegation].expiresAt)
            && (Readable(cfg, w, w.replicas[r].act, h) ==>
                  h in w.replicas[r].origin &&
                  var granted := w.replicas[r].origin[h].delegations;
                  res.delegation in granted && res.expiresAt <= granted[res.delegation].expiresAt)
  {
    ReachableInv(cfg, w);
    var rep := w.replicas[r];
    assert ReplicaInv(w, r, rep);
    if Readable(cfg, w, rep.act, h) {
      assert EntryOk(w, rep.act[h], rep.origin[h], h);
      assert TokenLinked(rep.origin[h], rep.origin[h].tokens[h]);
    } else {
      assert TokenLinked(w.st, w.st.tokens[h]);
    }
  }

  /**
    A served token carries its grant's own tenant, user, agent and scopes: those
    of the grant in the tables while it exists, and on a hit those of the grant
    as it was when the answer was cached.
   */
  lemma ServedClaimsAreTheGrants(cfg: Config, w: World, r: nat, h: string, up: Uptime)
    requires Reachable(cfg, w) && r < |w.replicas|
    requires var answer := Observe(cfg, w, ResolveToken(r, h, up)).answer;
             answer.Ok? && answer.value.Some?
    ensures var res := Observe(cfg, w, ResolveToken(r, h, up)).answer.value.value;
            && (res.delegation in w.st.delegations ==> ClaimsOf(res, w.st.delegations[res.delegation]))
            && (Readable(cfg, w, w.replicas[r].act, h) ==>
                  && h in w.replicas[r].origin && res.delegation in w.replicas[r].origin[h].delegations
                  && ClaimsOf(res, w.replicas[r].origin[h].delegations[res.delegation]))
  {
    ReachableInv(cfg, w);
    var rep := w.replicas[r];
    assert ReplicaInv(w, r, rep);
    if Readable(cfg, w, rep.act, h) {
      assert EntryOk(w, rep.act[h], rep.origin[h], h);
      assert TokenLinked(rep.origin[h], rep.origin[h].tokens[h]);
    } else {
      assert TokenLinked(w.st, w.st.tokens[h]);
    }
  }

  /** So does the context of a login by act-token, which names the agent that acts and for whom. */
  lemma ActingContextIsTheGrants(
    cfg: Config, w: World, r: nat, h: string, introspection: Result<IntrospectionResult, AuthError>,
    subject: Result<ResolvedSubject, AuthError>, up: Uptime)
    requires Reachable(cfg, w) && r < |w.replicas|
    requires var context := Observe(cfg, w, Login(r, h, introspection, subject, up)).context;
             context.Ok? && context.value.actor.Some?
    ensures var context := Observe(cfg, w, Login(r, h, introspection, subject, up)).context.value;
            var d := context.actor.value.delegation;
            d in w.st.delegations ==>
              var grant := w.st.delegations[d];
              && context.tenant == grant.tenant && context.subject == grant.user && context.subjectType == User
              && context.actor.value.agent == grant.agent && context.scopes == grant.scopes
              && w.now < grant.expiresAt
  {
    var rep := w.replicas[r];
    AuthPaths.ActorsComeFromActTokens(AuthPaths.Login(
      w.st, rep.act, rep.status, true, h, introspection, subject, w.now, cfg.cacheTtl, up));
    ServedClaimsAreTheGrants(cfg, w, r, h, up);
    ServedBeforeGrantExpires(cfg, w, r, h, up);
  }

  /** A status answer differs from the table only while a readable entry awaits an invalidation. */
  lemma WrongStatusIsAccountedFor(cfg: Config, w: World, r: nat, id: string, up: Uptime)
    requires Reachable(cfg, w) && r < |w.replicas|
    requires var status := Observe(cfg, w, AskStatus(r, id, up)).status;
             status.Ok? && status.value != StatusOf(w.st, id)
    ensures Readable(cfg, w, w.replicas[r].status, id) && Covered(w, r, OfAgent(id))
  {
    ReachableInv(cfg, w);
    assert ReplicaInv(w, r, w.replicas[r]);
    assert id in w.replicas[r].status && StatusCovered(w, r, id, w.replicas[r].status[id].value);
  }

  /* ---- Tenants ---- */

  /** The event is a write made in the name of tenant `tenant`. */
  predicate WritesFor(e: Event, tenant: string) {
    match e
    case RevokeGrant(_, t, _) => t == tenant
    case ChangeStatus(_, t, _, _) => t == tenant
    case RemoveAgent(_, t, _) => t == tenant
    case _ => false
  }

  lemma NewRowsKeepTenant(cfg: Config, w: World, e: Event, tenant: string)
    requires e.Register? || e.Grant? || e.Mint?
    requires w.st.agents.Keys <= w.ids && w.st.delegations.Keys <= w.ids && w.st.tokens.Keys <= w.hashes
    ensures TenantKept(w.st, Step(cfg, w, e).st, tenant)
  {
    GrowthKeepsTenant(w.st, Step(cfg, w, e).st, tenant);
  }

  lemma StepKeepsTenant(cfg: Config, w: World, e: Event, tenant: string)
    requires Linked(w.st) && !WritesFor(e, tenant)
    requires w.st.agents.Keys <= w.ids && w.st.delegations.Keys <= w.ids && w.st.tokens.Keys <= w.hashes
    ensures TenantKept(w.st, Step(cfg, w, e).st, tenant)
  {
    if e.Register? || e.Grant? || e.Mint? {
      NewRowsKeepTenant(cfg, w, e, tenant);
    } else if e.RevokeGrant? {
      RevokeKeepsTenant(w.st, e.tenant, e.id, w.now, tenant);
    } else if e.ChangeStatus? {
      StatusKeepsTenant(w.st, e.tenant, e.id, e.status, tenant);
    } else if e.RemoveAgent? {
      DeleteKeepsTenant(w.st, e.tenant, e.id, tenant);
    } else {
      assert Step(cfg, w, e).st == w.st;
    }
  }

  /** No run without a write in a tenant's name changes that tenant's agents, grants or tokens. */
  lemma {:induction false} TenantsAreIsolated(cfg: Config, w: World, es: seq<Event>, tenant: string)
    requires Inv(w) && forall i | 0 <= i < |es| :: !WritesFor(es[i], tenant)
    ensures TenantKept(w.st, Run(cfg, w, es).st, tenant)
    decreases es
  {
    if es != [] {
      var v := Step(cfg, w, es[0]);
      StepKeepsInv(cfg, w, es[0]);
      StepKeepsTenant(cfg, w, es[0], tenant);
      TenantsAreIsolated(cfg, v, es[1..], tenant);
      TenantKeptTwice(w.st, v.st, Run(cfg, v, es[1..]).st, tenant);
    }
  }

  /** A change of status by the agent's own tenant takes effect in the tables at once; by any other it is refused. */
  lemma StatusChangeIsExact(cfg: Config, w: World, r: nat, tenant: string, id: string, status: string)
    ensures var v := Step(cfg, w, ChangeStatus(r, tenant, id, status));
            if id in w.st.agents && w.st.agents[id].tenant == tenant
            then StatusOf(v.st, id) == Some(status) && (r, OfAgent(id)) in v.owed
            else v == w
  {
    SetStatusMeans(w.st, tenant, id, status);
  }

  /* ---- Revocation is final on a replica that has applied it ---- */

  /** The tables refuse every token an invalidation would drop. */
  ghost predicate Barred(st: Stores, message: Invalidation) {
    match message
    case OfDelegation(d) => d in st.delegations ==> Revoked(st, d)
    case OfAgent(a) => !AgentActive(st, a)
  }

  lemma ResolveSkipsBarred(
    st: Stores, cache: ActCache, hash: string, now: int, ttl: int, up: Uptime, message: Invalidation)
    requires Barred(st, message) && NoneHit(cache, message)
    ensures var (answer, cache') := Resolve(st, cache, hash, now, ttl, up);
            NoneHit(cache', message) && (answer.Ok? ==> !Hit(message, answer.value))
  {
    if Lookup(cache, hash, now, ttl).None? {
      MissIsFresh(st, cache, hash, now, ttl, up);
    }
  }

  lemma StepKeepsNoneHit(cfg: Config, w: World, r: nat, message: Invalidation, e: Event)
    requires r < |w.replicas| && Barred(w.st, message) && NoneHit(w.replicas[r].act, message)
    ensures var v := Step(cfg, w, e);
            |v.replicas| == |w.replicas| && NoneHit(v.replicas[r].act, message)
  {
    match e
    case ResolveToken(q, hash, up) =>
      ResolveSkipsBarred(w.st, w.replicas[r].act, hash, w.now, cfg.cacheTtl, up, message);
    case Login(q, hash, introspection, subject, up) =>
      LoginEffect(cfg, w, w.replicas[r], hash, introspection, subject, up);
      ResolveSkipsBarred(w.st, w.replicas[r].act, hash, w.now, cfg.cacheTtl, up, message);
    case _ =>
  }

  /** The grant was issued and can never again validate: revoked, or deleted with its agent. */
  ghost predicate GrantDead(w: World, d: string) {
    d in w.ids && Barred(w.st, OfDelegation(d))
  }

  /** Output `o` shows replica `r` accepting a token of grant `d`. */
  predicate ServesGrant(o: Output, r: nat, d: string) {
    || (o.Resolved? && o.replica == r && o.answer.Ok? && Hit(OfDelegation(d), o.answer.value))
    || (o.LoggedIn? && o.replica == r && o.context.Ok? && o.context.value.actor.Some?
        && o.context.value.actor.value.delegation == d)
  }

  lemma StepKeepsGrantDead(cfg: Config, w: World, d: string, e: Event)
    requires GrantDead(w, d)
    ensures GrantDead(Step(cfg, w, e), d)
  {
  }

  lemma DeadGrantNotServed(cfg: Config, w: World, r: nat, d: string, e: Event)
    requires r < |w.replicas| && GrantDead(w, d) && NoneHit(w.replicas[r].act, OfDelegation(d))
    ensures !ServesGrant(Observe(cfg, w, e), r, d)
  {
    match e
    case ResolveToken(q, hash, up) =>
      ResolveSkipsBarred(w.st, w.replicas[r].act, hash, w.now, cfg.cacheTtl, up, OfDelegation(d));
    case Login(q, hash, introspection, subject, up) =>
      ResolveSkipsBarred(w.st, w.replicas[r].act, hash, w.now, cfg.cacheTtl, up, OfDelegation(d));
    case _ =>
  }

  lemma {:induction false} GrantStaysOut(cfg: Config, w: World, r: nat, d: string, es: seq<Event>)
    requires r < |w.replicas| && GrantDead(w, d) && NoneHit(w.replicas[r].act, OfDelegation(d))
    ensures forall i | 0 <= i < |Outputs(cfg, w, es)| :: !ServesGrant(Outputs(cfg, w, es)[i], r, d)
    decreases es
  {
    if es != [] {
      DeadGrantNotServed(cfg, w, r, d, es[0]);
      StepKeepsGrantDead(cfg, w, d, es[0]);
      StepKeepsNoneHit(cfg, w, r, OfDelegation(d), es[0]);
      GrantStaysOut(cfg, Step(cfg, w, es[0]), r, d, es[1..]);
    }
  }

  /**
    Once a revoked grant's invalidation has run on a replica, locally or as a
    delivered message, no later event there ever serves that grant, whatever
    else happens in the system.
   */
  lemma RevocationIsFinal(cfg: Config, w: World, r: nat, d: string, local: bool, es: seq<Event>)
    requires Reachable(cfg, w) && r < |w.replicas| && Revoked(w.st, d)
    ensures var applied := if local then Invalidate(r, OfDelegation(d)) else Deliver(r, OfDelegation(d));
            forall o | o in Outputs(cfg, Step(cfg, w, applied), es) :: !ServesGrant(o, r, d)
  {
    ReachableInv(cfg, w);
    var applied := if local then Invalidate(r, OfDelegation(d)) else Deliver(r, OfDelegation(d));
    GrantStaysOut(cfg, Step(cfg, w, applied), r, d, es);
  }

  /* ---- The big red button, on both authentication paths ---- */

  ghost predicate AgentOff(w: World, r: nat, a: string) {
    && a in w.ids && Barred(w.st, OfAgent(a)) && r < |w.replicas|
    && (a in w.replicas[r].status ==> w.replicas[r].status[a].value != Some(AGENT_STATUS_ACTIVE))
  }

  predicate Enables(e: Event, a: string) {
    e.ChangeStatus? && e.id == a && e.status == AGENT_STATUS_ACTIVE
  }

  /** Output `o` shows replica `r` accepting agent `a`, acting for a user or on its own. */
  predicate AdmitsAgent(o: Output, r: nat, a: string) {
    || (o.Resolved? && o.replica == r && o.answer.Ok? && Hit(OfAgent(a), o.answer.value))
    || (o.LoggedIn? && o.replica == r && o.context.Ok?
        && var context := o.context.value;
           || (context.actor.Some? && context.actor.value.agent == a)
           || (context.subjectType == SubjectType.Agent && context.subject == a))
  }

  lemma StepKeepsAgentOff(cfg: Config, w: World, r: nat, a: string, e: Event)
    requires AgentOff(w, r, a) && !Enables(e, a)
    ensures AgentOff(Step(cfg, w, e), r, a)
  {
    match e
    case Login(q, hash, introspection, subject, up) =>
      LoginEffect(cfg, w, w.replicas[r], hash, introspection, subject, up);
    case _ =>
  }

  lemma OffAgentNotAdmitted(cfg: Config, w: World, r: nat, a: string, e: Event)
    requires AgentOff(w, r, a) && NoneHit(w.replicas[r].act, OfAgent(a))
    ensures !AdmitsAgent(Observe(cfg, w, e), r, a)
  {
    match e
    case ResolveToken(q, hash, up) =>
      ResolveSkipsBarred(w.st, w.replicas[r].act, hash, w.now, cfg.cacheTtl, up, OfAgent(a));
    case Login(q, hash, introspection, subject, up) =>
      ResolveSkipsBarred(w.st, w.replicas[r].act, hash, w.now, cfg.cacheTtl, up, OfAgent(a));
    case _ =>
  }

  lemma {:induction false} AgentStaysOff(cfg: Config, w: World, r: nat, a: string, es: seq<Event>)
    requires AgentOff(w, r, a) && NoneHit(w.replicas[r].act, OfAgent(a))
    requires forall i | 0 <= i < |es| :: !Enables(es[i], a)
    ensures forall i | 0 <= i < |Outputs(cfg, w, es)| :: !AdmitsAgent(Outputs(cfg, w, es)[i], r, a)
    decreases es
  {
    if es != [] {
      OffAgentNotAdmitted(cfg, w, r, a, es[0]);
      StepKeepsAgentOff(cfg, w, r, a, es[0]);
      StepKeepsNoneHit(cfg, w, r, OfAgent(a), es[0]);
      AgentStaysOff(cfg, Step(cfg, w, es[0]), r, a, es[1..]);
    }
  }

  /* ---- While the agent stays registered, not as a plain client either ---- */

  /** Agent `a` is registered and not active, and replica `r` does not believe otherwise. */
  ghost predicate AgentDown(w: World, r: nat, a: string) {
    && a in w.ids && r < |w.replicas|
    && a in w.st.agents && w.st.agents[a].status != AGENT_STATUS_ACTIVE
    && (a in w.replicas[r].status ==>
          var seen := w.replicas[r].status[a].value; seen.Some? && seen.value != AGENT_STATUS_ACTIVE)
  }

  predicate Removes(e: Event, a: string) {
    e.RemoveAgent? && e.id == a
  }

  /** Output `o` shows replica `r` accepting the machine credentials of `a`, under whatever type. */
  predicate AdmitsMachine(o: Output, r: nat, a: string) {
    && o.LoggedIn? && o.replica == r && o.context.Ok?
    && o.context.value.actor.None? && o.context.value.subject == a && o.context.value.subjectType != User
  }

  lemma StepKeepsAgentDown(cfg: Config, w: World, r: nat, a: string, e: Event)
    requires AgentDown(w, r, a) && !Enables(e, a) && !Removes(e, a)
    ensures AgentDown(Step(cfg, w, e), r, a)
  {
    match e
    case Login(q, hash, introspection, subject, up) =>
      LoginEffect(cfg, w, w.replicas[r], hash, introspection, subject, up);
    case _ =>
  }

  lemma DownAgentIsNoMachine(cfg: Config, w: World, r: nat, a: string, e: Event)
    requires AgentDown(w, r, a)
    ensures !AdmitsMachine(Observe(cfg, w, e), r, a)
  {
    match e
    case Login(q, hash, introspection, subject, up) =>
      if q == r {
        var rep := w.replicas[r];
        AuthPaths.OthersAreIntrospected(AuthPaths.Login(
          w.st, rep.act, rep.status, true, hash, introspection, subject, w.now, cfg.cacheTtl, up));
      }
    case _ =>
  }

  lemma {:induction false} AgentStaysDown(cfg: Config, w: World, r: nat, a: string, es: seq<Event>)
    requires AgentDown(w, r, a) && forall i | 0 <= i < |es| :: !Enables(es[i], a) && !Removes(es[i], a)
    ensures forall o | o in Outputs(cfg, w, es) :: !AdmitsMachine(o, r, a)
    decreases es
  {
    if es != [] {
      DownAgentIsNoMachine(cfg, w, r, a, es[0]);
      StepKeepsAgentDown(cfg, w, r, a, es[0]);
      AgentStaysDown(cfg, Step(cfg, w, es[0]), r, a, es[1..]);
    }
  }

  /**
    Once an agent is disabled (or deleted) and its eviction has run on a replica,
    no bearer token is admitted there as that agent or on its behalf until some
    event makes it active again. While it stays registered, its own tokens are
    not admitted as those of a plain client either.
   */
  lemma BigRedButton(cfg: Config, w: World, r: nat, a: string, local: bool, es: seq<Event>)
    requires Reachable(cfg, w) && r < |w.replicas| && a in w.ids && !AgentActive(w.st, a)
    requires forall i | 0 <= i < |es| :: !Enables(es[i], a)
    ensures var applied := if local then Invalidate(r, OfAgent(a)) else Deliver(r, OfAgent(a));
            && (forall o | o in Outputs(cfg, Step(cfg, w, applied), es) :: !AdmitsAgent(o, r, a))
            && (a in w.st.agents && (forall i | 0 <= i < |es| :: !Removes(es[i], a)) ==>
                  forall o | o in Outputs(cfg, Step(cfg, w, applied), es) :: !AdmitsMachine(o, r, a))
  {
    ReachableInv(cfg, w);
    var applied := if local then Invalidate(r, OfAgent(a)) else Deliver(r, OfAgent(a));
    AgentStaysOff(cfg, Step(cfg, w, applied), r, a, es);
    if a in w.st.agents && forall i | 0 <= i < |es| :: !Removes(es[i], a) {
      AgentStaysDown(cfg, Step(cfg, w, applied), r, a, es);
    }
  }
}
