/**
  The act-token protocol over any number of replicas, with every call run as
  one step. A world holds the shared tables, the clock, each replica's caches
  and the invalidations still to be applied. Runs are arbitrary sequences of
  events; an event whose precondition fails (an unknown row, a duplicate key)
  leaves the world as it was.

  Assumed of the environment: the clock never goes back, ids and token hashes
  are fresh when they are drawn, and every write that disables, deletes or
  revokes owes an invalidate call on the replica that made it.
 */
module AtomicProtocol {
  import opened Wrappers
  import opened DbErrors
  import opened AgentStores
  import opened AuthTypes
  import opened AgentAuthority

  datatype Config = Config(cacheTtl: int, actTokenTtl: int, hasBroker: bool)

  /** `origin` remembers, for each cached token, the tables as they were when it was cached. */
  datatype Replica = Replica(act: ActCache, status: StatusCache, origin: map<string, Stores>)

  datatype World = World(
    now: int,
    st: Stores,
    replicas: seq<Replica>,
    owed: set<(nat, Invalidation)>,     // written, the invalidate call has not run yet
    flying: set<(nat, Invalidation)>,   // broadcast, not yet applied at that replica
    lost: set<(nat, Invalidation)>,     // broadcast, dropped on the way, nothing like it applied there since
    ids: set<string>,                   // every agent or grant id drawn or asked about
    hashes: set<string>)                // every token hash minted or presented

  datatype Event =
    | Tick(elapsed: nat)
    | Register(id: string, tenant: string)
    | Grant(id: string, row: Delegation)
    | Mint(hash: string, id: string)
    | ResolveToken(replica: nat, hash: string, up: Uptime)
    | AskStatus(replica: nat, id: string, up: Uptime)
    | Login(replica: nat, hash: string, introspection: Result<IntrospectionResult, AuthError>,
            subject: Result<ResolvedSubject, AuthError>, up: Uptime)
    | RevokeGrant(replica: nat, tenant: string, id: string)
    | ChangeStatus(replica: nat, tenant: string, id: string, status: string)
    | RemoveAgent(replica: nat, tenant: string, id: string)
    | Invalidate(replica: nat, message: Invalidation)
    | Deliver(replica: nat, message: Invalidation)
    | Lose(replica: nat, message: Invalidation)

  datatype Output =
    | Silent
    | Resolved(replica: nat, hash: string, answer: Result<Option<Resolution>, DbError>)
    | StatusRead(replica: nat, id: string, status: Result<Option<string>, DbError>)
    | LoggedIn(replica: nat, context: Result<AuthContext, Refusal>)

  /* ---- Steps ---- */

  function Evict(rep: Replica, message: Invalidation): Replica {
    rep.(act := EvictAct(rep.act, message), status := EvictStatus(rep.status, message))
  }

  /** A resolve that changed the entry for `hash` also records the tables it read. */
  function Remember(rep: Replica, act: ActCache, hash: string, st: Stores): Replica {
    if act == rep.act then rep else rep.(act := act, origin := rep.origin[hash := st])
  }

  function Others(w: World, replica: nat, message: Invalidation): set<(nat, Invalidation)> {
    set r: nat | r < |w.replicas| && r != replica :: (r, message)
  }

  function Write(w: World, written: Result<Stores, DbError>, replica: nat, message: Invalidation): World {
    match written
    case Err(_) => w
    case Ok(st) => w.(st := st, owed := w.owed + {(replica, message)})
  }

  function Asked(
    introspection: Result<IntrospectionResult, AuthError>, subject: Result<ResolvedSubject, AuthError>): set<string> {
    if introspection.Ok? && subject.Ok? then {subject.value.publicId} else {}
  }

  function Step(cfg: Config, w: World, e: Event): World {
    match e
    case Tick(elapsed) => w.(now := w.now + elapsed)
    case Register(id, tenant) =>
      if id in w.ids then w else w.(st := RegisterAgent(w.st, id, tenant), ids := w.ids + {id})
    case Grant(id, row) =>
      if id in w.ids then w else
        (match CreateDelegation(w.st, id, row)
         case Ok(st) => w.(st := st, ids := w.ids + {id})
         case Err(_) => w)
    case Mint(hash, id) =>
      if hash in w.hashes || id !in w.st.delegations then w else
        var row := MintedRow(id, w.st.delegations[id], w.now, cfg.actTokenTtl);
        w.(st := w.st.(tokens := w.st.tokens[hash := row]), hashes := w.hashes + {hash})
    case ResolveToken(r, hash, up) =>
      if r >= |w.replicas| then w else
        var rep := w.replicas[r];
        var act := Resolve(w.st, rep.act, hash, w.now, cfg.cacheTtl, up).1;
        w.(replicas := w.replicas[r := Remember(rep, act, hash, w.st)], hashes := w.hashes + {hash})
    case AskStatus(r, id, up) =>
      if r >= |w.replicas| then w else
        var rep := w.replicas[r];
        var status := ReadStatus(w.st, rep.status, id, w.now, cfg.cacheTtl, up).1;
        w.(replicas := w.replicas[r := rep.(status := status)], ids := w.ids + {id})
    case Login(r, hash, introspection, subject, up) =>
      if r >= |w.replicas| then w else
        var rep := w.replicas[r];
        var v := Authenticate(w.st, rep.act, rep.status, true, hash, introspection, subject, w.now, cfg.cacheTtl, up);
        w.(replicas := w.replicas[r := Remember(rep, v.act, hash, w.st).(status := v.status)],
           hashes := w.hashes + {hash}, ids := w.ids + Asked(introspection, subject))
    case RevokeGrant(r, tenant, id) => Write(w, Revoke(w.st, tenant, id, w.now), r, OfDelegation(id))
    case ChangeStatus(r, tenant, id, status) => Write(w, SetStatus(w.st, tenant, id, status), r, OfAgent(id))
    case RemoveAgent(r, tenant, id) => Write(w, DeleteAgent(w.st, tenant, id), r, OfAgent(id))
    case Invalidate(r, message) =>
      if r >= |w.replicas| then w else
        var told := Others(w, r, message);
        w.(replicas := w.replicas[r := Evict(w.replicas[r], message)],
           owed := w.owed - {(r, message)},
           flying := if cfg.hasBroker then w.flying + told else w.flying,
           lost := (if cfg.hasBroker then w.lost else w.lost + told) - {(r, message)})
    case Deliver(r, message) =>
      if r >= |w.replicas| then w else
        w.(replicas := w.replicas[r := Evict(w.replicas[r], message)],
           flying := w.flying - {(r, message)}, lost := w.lost - {(r, message)})
    case Lose(r, message) =>
      if (r, message) !in w.flying then w else
        w.(flying := w.flying - {(r, message)}, lost := w.lost + {(r, message)})
  }

  function Observe(cfg: Config, w: World, e: Event): Output {
    match e
    case ResolveToken(r, hash, up) =>
      if r >= |w.replicas| then Silent
      else Resolved(r, hash, Resolve(w.st, w.replicas[r].act, hash, w.now, cfg.cacheTtl, up).0)
    case AskStatus(r, id, up) =>
      if r >= |w.replicas| then Silent
      else StatusRead(r, id, ReadStatus(w.st, w.replicas[r].status, id, w.now, cfg.cacheTtl, up).0)
    case Login(r, hash, introspection, subject, up) =>
      if r >= |w.replicas| then Silent
      else LoggedIn(r, Authenticate(w.st, w.replicas[r].act, w.replicas[r].status, true, hash, introspection,
                                    subject, w.now, cfg.cacheTtl, up).answer)
    case _ => Silent
  }

  function Run(cfg: Config, w: World, es: seq<Event>): World
    decreases es
  {
    if es == [] then w else Run(cfg, Step(cfg, w, es[0]), es[1..])
  }

  /** What the events of a run return, in order. */
  function Outputs(cfg: Config, w: World, es: seq<Event>): seq<Output>
    decreases es
  {
    if es == [] then [] else [Observe(cfg, w, es[0])] + Outputs(cfg, Step(cfg, w, es[0]), es[1..])
  }

  function Initial(replicas: nat, now: int): World {
    World(now, Stores(map[], map[], map[]), seq(replicas, _ => Replica(map[], map[], map[])), {}, {}, {}, {}, {})
  }

  ghost predicate Reachable(cfg: Config, w: World) {
    exists n: nat, now: int, es: seq<Event> {:trigger Run(cfg, Initial(n, now), es)} ::
      w == Run(cfg, Initial(n, now), es)
  }

  /* ---- The invariant ---- */

  /** How the tables `before` relate to the later tables `st`, as far as token `h` can see. */
  ghost predicate Descends(before: Stores, st: Stores, ids: set<string>, h: string) {
    if h !in before.tokens then h !in st.tokens
    else
      var row := before.tokens[h];
      && row.delegation in before.delegations && row.delegation in ids && row.agent in ids
      && (h in st.tokens ==> st.tokens[h] == row)
      && (row.agent in st.agents ==> h in st.tokens)
      && (row.delegation in st.delegations ==>
            var earlier := before.delegations[row.delegation];
            var later := st.delegations[row.delegation];
            && earlier.(revokedAt := None) == later.(revokedAt := None)
            && (earlier.revokedAt.Some? ==> later.revokedAt == earlier.revokedAt))
  }

  ghost predicate EntryOk(w: World, entry: Entry<Option<Resolution>>, origin: Stores, h: string) {
    && h in w.hashes
    && entry.at <= w.now
    && Linked(origin)
    && entry.value == Fresh(origin, h, entry.at)
    && Descends(origin, w.st, w.ids, h)
  }

  /** An invalidation still to be applied at replica `r`: owed by its writer, in flight, or lost. */
  ghost predicate Covered(w: World, r: nat, message: Invalidation) {
    || (exists writer: nat :: (writer, message) in w.owed)
    || (r, message) in w.flying
    || (r, message) in w.lost
  }

  ghost predicate EntryCovered(w: World, r: nat, value: Option<Resolution>) {
    value.Some? ==>
      && (!AgentActive(w.st, value.value.agent) ==> Covered(w, r, OfAgent(value.value.agent)))
      && (Revoked(w.st, value.value.delegation) ==> Covered(w, r, OfDelegation(value.value.delegation)))
  }

  ghost predicate StatusCovered(w: World, r: nat, id: string, value: Option<string>) {
    id in w.ids && (value != StatusOf(w.st, id) ==> Covered(w, r, OfAgent(id)))
  }

  ghost predicate ReplicaInv(w: World, r: nat, rep: Replica) {
    && rep.act.Keys <= rep.origin.Keys
    && (forall h | h in rep.act :: EntryOk(w, rep.act[h], rep.origin[h], h) && EntryCovered(w, r, rep.act[h].value))
    && (forall id | id in rep.status :: StatusCovered(w, r, id, rep.status[id].value))
  }

  ghost predicate Inv(w: World) {
    && Linked(w.st)
    && w.st.agents.Keys <= w.ids && w.st.delegations.Keys <= w.ids && w.st.tokens.Keys <= w.hashes
    && (forall r | 0 <= r < |w.replicas| :: ReplicaInv(w, r, w.replicas[r]))
  }
}
