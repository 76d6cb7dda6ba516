/**
  The act-token protocol with `resolve_act_token` split where it awaits: the
  cache lookup, the token read, the clock sample, the grant read, the status
  read and the cache insert are separate steps, and any number of resolves may
  be in flight at once. Evictions happen at any time or never, which covers
  every broadcast being applied late, twice or not at all.

  The world keeps its whole past, one moment per step, so that an entry can be
  held against the tables as they really were when it was read.
 */
module SplitProtocol {
  import opened Wrappers
  import opened DbErrors
  import opened AgentStores

  datatype Config = Config(cacheTtl: int, actTokenTtl: int)

  datatype Moment = Moment(now: int, st: Stores)

  /** The moments at which a resolve read the token, the clock, the grant and the status. */
  datatype Evidence = Evidence(rowAt: nat, clockAt: nat, grantAt: nat, statusAt: nat)

  datatype Ruling = Refused | Accepted(res: Resolution, ev: Evidence)

  datatype Phase =
    | Missed
    | GotRow(row: ActToken, rowAt: nat)
    | Clocked(row: ActToken, rowAt: nat, clockAt: nat, clock: int)
    | GotGrant(row: ActToken, rowAt: nat, clockAt: nat, grantAt: nat)
    | Decided(ruling: Ruling)

  datatype Task = Task(replica: nat, hash: string, phase: Phase)

  datatype Replica = Replica(act: ActCache, why: map<string, Evidence>)

  datatype World = World(
    past: seq<Moment>,           // never empty; the last moment is the present
    replicas: seq<Replica>,
    tasks: map<nat, Task>,       // resolves in flight
    begun: set<nat>,             // every task number ever used
    ids: set<string>,
    hashes: set<string>)

  datatype Event =
    | Tick(elapsed: nat)
    | Register(id: string, tenant: string)
    | Grant(id: string, row: Delegation)
    | Mint(hash: string, id: string)
    | RevokeGrant(tenant: string, id: string)
    | ChangeStatus(tenant: string, id: string, status: string)
    | RemoveAgent(tenant: string, id: string)
    | Evict(replica: nat, message: Invalidation)
    | Begin(task: nat, replica: nat, hash: string)
    | Advance(task: nat, up: bool)

  datatype Output =
    | Silent
    | Served(replica: nat, hash: string, answer: Result<Option<Resolution>, DbError>)

  ghost predicate Timed(w: World) { |w.past| > 0 }

  function Present(w: World): Moment
    requires Timed(w)
  {
    w.past[|w.past| - 1]
  }

  /** The tables after an event; an event that does not touch them leaves them alone. */
  function NextTables(cfg: Config, w: World, e: Event): Stores
    requires Timed(w)
  {
    var st := Present(w).st;
    var attempted: Result<Stores, DbError> :=
      match e
      case Register(id, tenant) => if id in w.ids then Ok(st) else Ok(AgentStores.RegisterAgent(st, id, tenant))
      case Grant(id, row) => if id in w.ids then Ok(st) else CreateDelegation(st, id, row)
      case Mint(hash, id) =>
        if hash in w.hashes || id !in st.delegations then Ok(st)
        else InsertToken(st, hash, MintedRow(id, st.delegations[id], Present(w).now, cfg.actTokenTtl))
      case RevokeGrant(tenant, id) => Revoke(st, tenant, id, Present(w).now)
      case ChangeStatus(tenant, id, status) => SetStatus(st, tenant, id, status)
      case RemoveAgent(tenant, id) => DeleteAgent(st, tenant, id)
      case _ => Ok(st);
    if attempted.Ok? then attempted.value else st
  }

  /** One read of a task in flight: its next phase, or `None` if the read failed. */
  function NextPhase(w: World, task: Task, up: bool): Option<Phase>
    requires Timed(w)
  {
    var here := |w.past| - 1;
    var Moment(now, st) := Present(w);
    match task.phase
    case Missed =>
      if !up then None
      else if task.hash !in st.tokens then Some(Decided(Refused))
      else Some(GotRow(st.tokens[task.hash], here))
    case GotRow(row, rowAt) =>
      if row.expiresAt <= now then Some(Decided(Refused)) else Some(Clocked(row, rowAt, here, now))
    case Clocked(row, rowAt, clockAt, clock) =>
      if !up then None
      else if row.delegation !in st.delegations then Some(Decided(Refused))
      else
        var grant := st.delegations[row.delegation];
        if grant.revokedAt.Some? || grant.expiresAt <= clock then Some(Decided(Refused))
        else Some(GotGrant(row, rowAt, clockAt, here))
    case GotGrant(row, rowAt, clockAt, grantAt) =>
      if !up then None
      else if !AgentActive(st, row.agent) then Some(Decided(Refused))
      else Some(Decided(Accepted(Claims(row), Evidence(rowAt, clockAt, grantAt, here))))
    case Decided(ruling) => Some(task.phase)
  }

  function Answer(ruling: Ruling): Option<Resolution> {
    if ruling.Accepted? then Some(ruling.res) else None
  }

  function Insert(rep: Replica, hash: string, ruling: Ruling, now: int): Replica {
    Replica(rep.act[hash := Entry(Answer(ruling), now)],
            if ruling.Accepted? then rep.why[hash := ruling.ev] else rep.why)
  }

  function Step(cfg: Config, w: World, e: Event): World
    requires Timed(w)
    ensures Timed(Step(cfg, w, e))
  {
    var now := Present(w).now + (if e.Tick? then e.elapsed else 0);
    var v := w.(past := w.past + [Moment(now, NextTables(cfg, w, e))]);
    match e
    case Register(id, _) => v.(ids := w.ids + {id})
    case Grant(id, _) => v.(ids := w.ids + {id})
    case Mint(hash, _) => v.(hashes := w.hashes + {hash})
    case Evict(r, message) =>
      if r >= |w.replicas| then v
      else v.(replicas := w.replicas[r := w.replicas[r].(act := EvictAct(w.replicas[r].act, message))])
    case Begin(t, r, hash) =>
      if r >= |w.replicas| || t in w.begun then v
      else if Lookup(w.replicas[r].act, hash, now, cfg.cacheTtl).Some? then v
      else v.(tasks := w.tasks[t := Task(r, hash, Missed)], begun := w.begun + {t}, hashes := w.hashes + {hash})
    case Advance(t, up) =>
      if t !in w.tasks then v
      else
        var task := w.tasks[t];
        if task.phase.Decided? && task.replica < |w.replicas| then
          var rep := Insert(w.replicas[task.replica], task.hash, task.phase.ruling, now);
          v.(tasks := w.tasks - {t}, replicas := w.replicas[task.replica := rep])
        else
          (match NextPhase(w, task, up)
           case None => v.(tasks := w.tasks - {t})
           case Some(phase) => v.(tasks := w.tasks[t := task.(phase := phase)]))
    case _ => v
  }

  function Observe(cfg: Config, w: World, e: Event): Output
    requires Timed(w)
  {
    match e
    case Begin(t, r, hash) =>
      if r >= |w.replicas| || t in w.begun then Silent
      else
        (match Lookup(w.replicas[r].act, hash, Present(w).now, cfg.cacheTtl)
         case None => Silent
         case Some(entry) =>
           Served(r, hash, Ok(if entry.Some? && entry.value.expiresAt > Present(w).now then entry else None)))
    case Advance(t, up) =>
      if t !in w.tasks then Silent
      else
        var task := w.tasks[t];
        if task.phase.Decided? then Served(task.replica, task.hash, Ok(Answer(task.phase.ruling)))
        else if NextPhase(w, task, up).None? then Served(task.replica, task.hash, Err(Unavailable))
        else Silent
    case _ => Silent
  }

  function Run(cfg: Config, w: World, es: seq<Event>): World
    requires Timed(w)
    ensures Timed(Run(cfg, w, es))
    decreases es
  {
    if es == [] then w else Run(cfg, Step(cfg, w, es[0]), es[1..])
  }

  function Outputs(cfg: Config, w: World, es: seq<Event>): seq<Output>
    requires Timed(w)
    decreases es
  {
    if es == [] then [] else [Observe(cfg, w, es[0])] + Outputs(cfg, Step(cfg, w, es[0]), es[1..])
  }

  function Initial(replicas: nat, now: int): World {
    World([Moment(now, Stores(map[], map[], map[]))], seq(replicas, _ => Replica(map[], map[])), map[], {}, {}, {})
  }

  ghost predicate Reachable(cfg: Config, w: World) {
    exists n: nat, now: int, es: seq<Event> {:trigger Run(cfg, Initial(n, now), es)} ::
      w == Run(cfg, Initial(n, now), es)
  }

  /* ---- The invariant ---- */

  /** Nothing in the tables is known to no one, and the dead stay dead. */
  ghost predicate History(w: World) {
    && Timed(w)
    && (forall i, j | 0 <= i <= j < |w.past| :: w.past[i].now <= w.past[j].now)
    && (forall i | 0 <= i < |w.past| :: Known(w.past[i].st, w.ids))
    && (forall i, j, d | 0 <= i <= j < |w.past| && Revoked(w.past[i].st, d) :: Dead(w.past[j].st, d))
  }

  /** Tokens agree with their grants, and grants keep the terms they were issued with. */
  ghost predicate TermsKept(past: seq<Moment>) {
    && (forall i | 0 <= i < |past| :: Bounded(past[i].st))
    && (forall i, j | 0 <= i <= j < |past| :: TermsAgree(past[i].st, past[j].st))
  }

  /** A stored token copies its grant and never outlives it. */
  ghost predicate Bounded(st: Stores) {
    forall h | h in st.tokens :: TokenLinked(st, st.tokens[h])
  }

  ghost predicate TermsAgree(before: Stores, after: Stores) {
    forall d | d in before.delegations && d in after.delegations ::
      SameTerms(before.delegations[d], after.delegations[d])
  }

  ghost predicate Known(st: Stores, ids: set<string>) {
    && st.agents.Keys <= ids && st.delegations.Keys <= ids
    && (forall h | h in st.tokens :: st.tokens[h].agent in ids && st.tokens[h].delegation in ids)
    && (forall d | d in st.delegations :: st.delegations[d].agent in ids)
  }

  /** The grant cannot validate against these tables. */
  ghost predicate Dead(st: Stores, d: string) {
    d in st.delegations ==> Revoked(st, d)
  }

  ghost predicate RowRead(past: seq<Moment>, hash: string, row: ActToken, rowAt: nat) {
    rowAt < |past| && hash in past[rowAt].st.tokens && past[rowAt].st.tokens[hash] == row
  }

  ghost predicate ClockRead(past: seq<Moment>, row: ActToken, rowAt: nat, clockAt: nat) {
    rowAt <= clockAt < |past| && past[clockAt].now < row.expiresAt
  }

  ghost predicate GrantRead(past: seq<Moment>, row: ActToken, clockAt: nat, grantAt: nat) {
    && clockAt <= grantAt < |past|
    && row.delegation in past[grantAt].st.delegations
    && !Revoked(past[grantAt].st, row.delegation)
    && past[clockAt].now < past[grantAt].st.delegations[row.delegation].expiresAt
  }

  /** The reads behind an acceptance, each against the tables of its own moment. */
  ghost predicate Backed(past: seq<Moment>, hash: string, res: Resolution, ev: Evidence) {
    && ev.rowAt < |past| && hash in past[ev.rowAt].st.tokens
    && var row := past[ev.rowAt].st.tokens[hash];
    && res == Claims(row)
    && ClockRead(past, row, ev.rowAt, ev.clockAt)
    && GrantRead(past, row, ev.clockAt, ev.grantAt)
    && ev.grantAt <= ev.statusAt < |past| && AgentActive(past[ev.statusAt].st, row.agent)
  }

  ghost predicate TaskOk(w: World, task: Task) {
    && task.replica < |w.replicas|
    && match task.phase
       case Missed => true
       case GotRow(row, rowAt) => RowRead(w.past, task.hash, row, rowAt)
       case Clocked(row, rowAt, clockAt, clock) =>
         && RowRead(w.past, task.hash, row, rowAt) && ClockRead(w.past, row, rowAt, clockAt)
         && clock == w.past[clockAt].now
       case GotGrant(row, rowAt, clockAt, grantAt) =>
         && RowRead(w.past, task.hash, row, rowAt) && ClockRead(w.past, row, rowAt, clockAt)
         && GrantRead(w.past, row, clockAt, grantAt)
       case Decided(Refused) => true
       case Decided(Accepted(res, ev)) => Backed(w.past, task.hash, res, ev)
  }

  /** A cached entry lies in the past; a positive one has backed evidence from before its insertion. */
  ghost predicate EntryOk(past: seq<Moment>, rep: Replica, h: string)
    requires h in rep.act && |past| > 0
  {
    && rep.act[h].at <= past[|past| - 1].now
    && (rep.act[h].value.Some? ==>
          && h in rep.why && Backed(past, h, rep.act[h].value.value, rep.why[h])
          && past[rep.why[h].statusAt].now <= rep.act[h].at)
  }

  ghost predicate Inv(w: World) {
    && History(w) && TermsKept(w.past)
    && w.tasks.Keys <= w.begun
    && (forall t | t in w.tasks :: TaskOk(w, w.tasks[t]))
    && (forall r, h | 0 <= r < |w.replicas| && h in w.replicas[r].act :: EntryOk(w.past, w.replicas[r], h))
  }
}
