/** What survives when resolves interleave, and exactly when revocation is not yet final. */
module SplitTheorems {
  import opened Wrappers
  import opened AgentStores
  import opened SplitProtocol

  /* ---- Every step keeps the invariant ---- */

  /** One event neither revives a grant nor names an id that was not known. */
  lemma TablesEvolve(cfg: Config, w: World, e: Event)
    requires Timed(w) && Known(Present(w).st, w.ids)
    ensures Known(NextTables(cfg, w, e), Step(cfg, w, e).ids)
    ensures forall d | d in w.ids && Dead(Present(w).st, d) :: Dead(NextTables(cfg, w, e), d)
  {
  }

  /** One event keeps tokens in line with their grants, and every known grant's terms. */
  lemma TermsStay(cfg: Config, w: World, e: Event)
    requires Timed(w) && Known(Present(w).st, w.ids) && Bounded(Present(w).st)
    ensures Bounded(NextTables(cfg, w, e))
    ensures forall d | d in w.ids && d in NextTables(cfg, w, e).delegations ::
              && d in Present(w).st.delegations
              && SameTerms(NextTables(cfg, w, e).delegations[d], Present(w).st.delegations[d])
  {
  }

  function NextMoment(cfg: Config, w: World, e: Event): Moment
    requires Timed(w)
  {
    Moment(Present(w).now + (if e.Tick? then e.elapsed else 0), NextTables(cfg, w, e))
  }

  /** Every step adds one moment to the past and never forgets an id. */
  lemma PastGrows(cfg: Config, w: World, e: Event)
    requires Timed(w)
    ensures Step(cfg, w, e).past == w.past + [NextMoment(cfg, w, e)]
    ensures w.ids <= Step(cfg, w, e).ids && |Step(cfg, w, e).replicas| == |w.replicas|
  {
  }

  lemma TermsAgreeNext(before: Stores, present: Stores, next: Stores, ids: set<string>)
    requires before.delegations.Keys <= ids && TermsAgree(before, present)
    requires forall d | d in ids && d in next.delegations ::
               d in present.delegations && SameTerms(next.delegations[d], present.delegations[d])
    ensures TermsAgree(before, next)
  {
  }

  lemma TermsExtend(past: seq<Moment>, m: Moment)
    requires TermsKept(past) && Bounded(m.st)
    requires forall i | 0 <= i < |past| :: TermsAgree(past[i].st, m.st)
    ensures TermsKept(past + [m])
  {
    var longer := past + [m];
    assert forall i | 0 <= i < |past| :: longer[i] == past[i];
  }

  lemma StepKeepsTerms(cfg: Config, w: World, e: Event)
    requires History(w) && TermsKept(w.past)
    ensures TermsKept(Step(cfg, w, e).past)
  {
    var present, next := Present(w).st, NextTables(cfg, w, e);
    assert Known(present, w.ids) && Bounded(present);
    TermsStay(cfg, w, e);
    forall i | 0 <= i < |w.past| ensures TermsAgree(w.past[i].st, next) {
      assert Known(w.past[i].st, w.ids);
      TermsAgreeNext(w.past[i].st, present, next, w.ids);
    }
    TermsExtend(w.past, NextMoment(cfg, w, e));
    PastGrows(cfg, w, e);
  }

  lemma DeadExtends(past: seq<Moment>, m: Moment, ids: set<string>)
    requires |past| > 0 && forall i | 0 <= i < |past| :: Known(past[i].st, ids)
    requires forall i, j, d | 0 <= i <= j < |past| && Revoked(past[i].st, d) :: Dead(past[j].st, d)
    requires forall d | d in ids && Dead(past[|past| - 1].st, d) :: Dead(m.st, d)
    ensures var longer := past + [m];
            forall i, j, d | 0 <= i <= j < |longer| && Revoked(longer[i].st, d) :: Dead(longer[j].st, d)
  {
    var longer := past + [m];
    forall i, j, d | 0 <= i <= j < |longer| && Revoked(longer[i].st, d)
      ensures Dead(longer[j].st, d)
    {
      if i < |past| {
        assert Known(past[i].st, ids);
        assert Dead(past[|past| - 1].st, d);
      }
    }
  }

  lemma StepKeepsHistory(cfg: Config, w: World, e: Event)
    requires History(w)
    ensures History(Step(cfg, w, e))
  {
    assert Known(Present(w).st, w.ids);
    TablesEvolve(cfg, w, e);
    PastGrows(cfg, w, e);
    var v := Step(cfg, w, e);
    DeadExtends(w.past, NextMoment(cfg, w, e), w.ids);
    forall i | 0 <= i < |v.past|
      ensures Known(v.past[i].st, v.ids)
    {
      if i < |w.past| {
        assert Known(w.past[i].st, w.ids);
      }
    }
  }

  lemma BackedStays(past: seq<Moment>, m: Moment, hash: string, res: Resolution, ev: Evidence)
    requires Backed(past, hash, res, ev)
    ensures Backed(past + [m], hash, res, ev)
  {
  }

  lemma TaskStays(w: World, v: World, m: Moment, task: Task)
    requires TaskOk(w, task) && v.past == w.past + [m] && |v.replicas| == |w.replicas|
    ensures TaskOk(v, task)
  {
    if task.phase.Decided? && task.phase.ruling.Accepted? {
      BackedStays(w.past, m, task.hash, task.phase.ruling.res, task.phase.ruling.ev);
    }
  }

  lemma EntryStays(past: seq<Moment>, m: Moment, rep: Replica, h: string)
    requires |past| > 0 && h in rep.act && EntryOk(past, rep, h) && past[|past| - 1].now <= m.now
    ensures EntryOk(past + [m], rep, h)
  {
    if rep.act[h].value.Some? {
      BackedStays(past, m, h, rep.act[h].value.value, rep.why[h]);
    }
  }

  /** The next phase of a task is justified by the tables it has just read. */
  lemma PhaseIsRead(w: World, task: Task, up: bool)
    requires Timed(w) && TaskOk(w, task) && NextPhase(w, task, up).Some?
    ensures TaskOk(w, task.(phase := NextPhase(w, task, up).value))
  {
  }

  lemma StepKeepsTasks(cfg: Config, w: World, e: Event)
    requires Inv(w)
    ensures var v := Step(cfg, w, e);
            v.tasks.Keys <= v.begun && forall t | t in v.tasks :: TaskOk(v, v.tasks[t])
  {
    var v := Step(cfg, w, e);
    var m := v.past[|w.past|];
    assert v.past == w.past + [m];
    forall t | t in v.tasks
      ensures TaskOk(v, v.tasks[t])
    {
      if t in w.tasks && v.tasks[t] == w.tasks[t] {
        TaskStays(w, v, m, w.tasks[t]);
      } else if e.Advance? {
        PhaseIsRead(w, w.tasks[t], e.up);
        TaskStays(w, v, m, v.tasks[t]);
      }
    }
  }

  /** The step inserts an answer for `h` at replica `r`. */
  ghost predicate Inserts(w: World, e: Event, r: nat, h: string) {
    && e.Advance? && e.task in w.tasks && w.tasks[e.task].phase.Decided?
    && w.tasks[e.task].replica == r && w.tasks[e.task].hash == h
  }

  /** Every other entry after a step was there before, with the same evidence. */
  lemma OtherEntries(cfg: Config, w: World, e: Event, r: nat, h: string)
    requires Timed(w) && r < |w.replicas| && |Step(cfg, w, e).replicas| == |w.replicas|
    requires h in Step(cfg, w, e).replicas[r].act && !Inserts(w, e, r, h)
    ensures var before, after := w.replicas[r], Step(cfg, w, e).replicas[r];
            && h in before.act && after.act[h] == before.act[h]
            && (h in before.why ==> h in after.why && after.why[h] == before.why[h])
  {
  }

  lemma InsertedEntry(cfg: Config, w: World, e: Event, r: nat, h: string)
    requires Inv(w) && r < |w.replicas| && Inserts(w, e, r, h)
    ensures |Step(cfg, w, e).replicas| == |w.replicas| && h in Step(cfg, w, e).replicas[r].act
    ensures EntryOk(Step(cfg, w, e).past, Step(cfg, w, e).replicas[r], h)
  {
    var v := Step(cfg, w, e);
    var m := v.past[|w.past|];
    assert v.past == w.past + [m];
    var ruling := w.tasks[e.task].phase.ruling;
    assert TaskOk(w, w.tasks[e.task]);
    if ruling.Accepted? {
      BackedStays(w.past, m, h, ruling.res, ruling.ev);
    }
  }

  lemma StepKeepsEntries(cfg: Config, w: World, e: Event, r: nat, h: string)
    requires Inv(w) && r < |w.replicas| && h in Step(cfg, w, e).replicas[r].act
    ensures EntryOk(Step(cfg, w, e).past, Step(cfg, w, e).replicas[r], h)
  {
    if Inserts(w, e, r, h) {
      InsertedEntry(cfg, w, e, r, h);
    } else {
      var v := Step(cfg, w, e);
      var m := v.past[|w.past|];
      assert v.past == w.past + [m];
      OtherEntries(cfg, w, e, r, h);
      assert EntryOk(w.past, w.replicas[r], h);
      EntryStays(w.past, m, w.replicas[r], h);
    }
  }

  lemma StepKeepsInv(cfg: Config, w: World, e: Event)
    requires Inv(w)
    ensures Inv(Step(cfg, w, e))
  {
    StepKeepsHistory(cfg, w, e);
    StepKeepsTerms(cfg, w, e);
    StepKeepsTasks(cfg, w, e);
    var v := Step(cfg, w, e);
    forall r, h | 0 <= r < |v.replicas| && h in v.replicas[r].act
      ensures EntryOk(v.past, v.replicas[r], h)
    {
      StepKeepsEntries(cfg, w, e, r, h);
    }
  }

  lemma {:induction false} RunKeepsInv(cfg: Config, w: World, es: seq<Event>)
    requires Inv(w)
    ensures Inv(Run(cfg, w, es))
    decreases es
  {
    if es != [] {
      StepKeepsInv(cfg, w, es[0]);
      RunKeepsInv(cfg, Step(cfg, w, es[0]), es[1..]);
    }
  }

  lemma ReachableInv(cfg: Config, w: World)
    requires Reachable(cfg, w)
    ensures Inv(w)
  {
    var n: nat, now: int, es: seq<Event> :| w == Run(cfg, Initial(n, now), es);
    RunKeepsInv(cfg, Initial(n, now), es);
  }

  /* ---- Bounded staleness ---- */

  /**
    Whatever the interleaving and however many messages are lost, a token served
    from a cache comes from an entry younger than the TTL, is itself unexpired,
    and rests on reads that found the token unexpired, the grant live and the
    agent active, the grant read preceding every moment at which it was revoked.
    It carries the claims of the grant that was read and expires no later.
   */
  lemma CachedAnswerIsBacked(cfg: Config, w: World, t: nat, r: nat, h: string, res: Resolution)
    requires Reachable(cfg, w) && Timed(w)
    requires Observe(cfg, w, Begin(t, r, h)) == Served(r, h, Ok(Some(res)))
    ensures h in w.replicas[r].act && h in w.replicas[r].why
    ensures var entry := w.replicas[r].act[h];
            var ev := w.replicas[r].why[h];
            && entry.value == Some(res)
            && 0 <= Present(w).now - entry.at < cfg.cacheTtl
            && Present(w).now < res.expiresAt
            && Backed(w.past, h, res, ev) && w.past[ev.statusAt].now <= entry.at
            && ClaimsOf(res, w.past[ev.grantAt].st.delegations[res.delegation])
            && (forall k | 0 <= k < |w.past| && Revoked(w.past[k].st, res.delegation) :: ev.grantAt < k)
  {
    ReachableInv(cfg, w);
    var rep := w.replicas[r];
    assert EntryOk(w.past, rep, h);
    EvidencePredatesRevocation(w, h, res, rep.why[h]);
    EvidenceIsBounded(w, h, res, rep.why[h]);
  }

  /** An acceptance carries its grant's own claims, in the tables of every moment at which the grant exists. */
  lemma EvidenceIsBounded(w: World, h: string, res: Resolution, ev: Evidence)
    requires Inv(w) && Backed(w.past, h, res, ev)
    ensures ClaimsOf(res, w.past[ev.grantAt].st.delegations[res.delegation])
    ensures forall k | 0 <= k < |w.past| && res.delegation in w.past[k].st.delegations ::
              ClaimsOf(res, w.past[k].st.delegations[res.delegation])
  {
    var row := w.past[ev.rowAt].st.tokens[h];
    assert Bounded(w.past[ev.rowAt].st) && TokenLinked(w.past[ev.rowAt].st, row);
    forall k | 0 <= k < |w.past| && res.delegation in w.past[k].st.delegations
      ensures ClaimsOf(res, w.past[k].st.delegations[res.delegation])
    {
      assert ev.rowAt <= k ==> TermsAgree(w.past[ev.rowAt].st, w.past[k].st);
      assert k <= ev.rowAt ==> TermsAgree(w.past[k].st, w.past[ev.rowAt].st);
    }
  }

  lemma EvidencePredatesRevocation(w: World, h: string, res: Resolution, ev: Evidence)
    requires Inv(w) && Backed(w.past, h, res, ev)
    ensures forall k | 0 <= k < |w.past| && Revoked(w.past[k].st, res.delegation) :: ev.grantAt < k
  {
    forall k | 0 <= k < |w.past| && Revoked(w.past[k].st, res.delegation)
      ensures ev.grantAt < k
    {
      assert k <= ev.grantAt ==> Dead(w.past[ev.grantAt].st, res.delegation);
    }
  }

  /** The same for a resolve that goes to the tables and answers after its own reads. */
  lemma ComputedAnswerIsBacked(cfg: Config, w: World, t: nat, up: bool, r: nat, h: string, res: Resolution)
    requires Reachable(cfg, w) && Timed(w)
    requires Observe(cfg, w, Advance(t, up)) == Served(r, h, Ok(Some(res)))
    ensures t in w.tasks && w.tasks[t].phase.Decided? && w.tasks[t].phase.ruling.Accepted?
    ensures var ev := w.tasks[t].phase.ruling.ev;
            && Backed(w.past, h, res, ev)
            && ClaimsOf(res, w.past[ev.grantAt].st.delegations[res.delegation])
            && (forall k | 0 <= k < |w.past| && Revoked(w.past[k].st, res.delegation) :: ev.grantAt < k)
  {
    ReachableInv(cfg, w);
    assert TaskOk(w, w.tasks[t]);
    EvidencePredatesRevocation(w, h, res, w.tasks[t].phase.ruling.ev);
    EvidenceIsBounded(w, h, res, w.tasks[t].phase.ruling.ev);
  }

  /* ---- Carriers: resolves that read the grant while it was live ---- */

  /** The task has read grant `d` as live and has not yet answered. */
  predicate Carries(task: Task, d: string) {
    match task.phase
    case GotGrant(row, _, _, _) => row.delegation == d
    case Decided(Accepted(res, _)) => res.delegation == d
    case _ => false
  }

  ghost predicate GrantDead(w: World, d: string) {
    Timed(w) && d in w.ids && Dead(Present(w).st, d)
  }

  /** Output `o` shows replica `r` accepting a token that `m` invalidates. */
  predicate ServesHit(o: Output, r: nat, m: Invalidation) {
    o.Served? && o.replica == r && o.answer.Ok? && Hit(m, o.answer.value)
  }

  predicate Serves(o: Output, r: nat, d: string) {
    ServesHit(o, r, OfDelegation(d))
  }

  predicate ServesAgent(o: Output, r: nat, a: string) {
    ServesHit(o, r, OfAgent(a))
  }

  lemma StepKeepsDead(cfg: Config, w: World, d: string, e: Event)
    requires Inv(w) && GrantDead(w, d)
    ensures GrantDead(Step(cfg, w, e), d)
  {
    assert Known(Present(w).st, w.ids);
    TablesEvolve(cfg, w, e);
  }

  /** Once a grant is dead no task starts to carry it. */
  lemma NoNewCarriers(cfg: Config, w: World, d: string, e: Event, t: nat)
    requires GrantDead(w, d) && t in Step(cfg, w, e).tasks && Carries(Step(cfg, w, e).tasks[t], d)
    ensures t in w.tasks && Carries(w.tasks[t], d)
  {
  }

  ghost predicate NoCarriers(w: World, d: string) {
    forall t | t in w.tasks :: !Carries(w.tasks[t], d)
  }

  /* ---- The same for agents: the status read decides ---- */

  /** The agent was registered and is not active: disabled, or deleted. */
  ghost predicate AgentOff(w: World, a: string) {
    Timed(w) && a in w.ids && !AgentActive(Present(w).st, a)
  }

  predicate Enables(e: Event, a: string) {
    e.ChangeStatus? && e.id == a && e.status == AGENT_STATUS_ACTIVE
  }

  /** The task has read agent `a` as active and has not yet answered. */
  predicate Accepts(task: Task, a: string) {
    task.phase.Decided? && task.phase.ruling.Accepted? && task.phase.ruling.res.agent == a
  }

  lemma StepKeepsOff(cfg: Config, w: World, a: string, e: Event)
    requires AgentOff(w, a) && !Enables(e, a)
    ensures AgentOff(Step(cfg, w, e), a)
  {
  }

  /** While an agent is off no task comes to accept it. */
  lemma NoNewAcceptance(cfg: Config, w: World, a: string, e: Event, t: nat)
    requires AgentOff(w, a) && t in Step(cfg, w, e).tasks && Accepts(Step(cfg, w, e).tasks[t], a)
    ensures t in w.tasks && Accepts(w.tasks[t], a)
  {
  }

  /* ---- How long an entry can outlive its cause ---- */

  /** The tables refuse what `m` invalidates, and no resolve in flight can still accept it. */
  ghost predicate Barred(w: World, m: Invalidation) {
    match m
    case OfDelegation(d) => GrantDead(w, d) && NoCarriers(w, d)
    case OfAgent(a) => AgentOff(w, a) && forall t | t in w.tasks :: !Accepts(w.tasks[t], a)
  }

  /** A revocation is permanent; an agent stays off until an event enables it. */
  predicate Lifts(e: Event, m: Invalidation) {
    m.OfAgent? && Enables(e, m.id)
  }

  /** Every entry that `m` invalidates, on every replica, was inserted no later than `deadline`. */
  ghost predicate InsertedBy(w: World, m: Invalidation, deadline: int) {
    forall r, h | 0 <= r < |w.replicas| && h in w.replicas[r].act && Hit(m, w.replicas[r].act[h].value) ::
      w.replicas[r].act[h].at <= deadline
  }

  lemma StepKeepsBarred(cfg: Config, w: World, m: Invalidation, e: Event)
    requires Inv(w) && Barred(w, m) && !Lifts(e, m)
    ensures Barred(Step(cfg, w, e), m)
  {
    var v := Step(cfg, w, e);
    match m
    case OfDelegation(d) =>
      StepKeepsDead(cfg, w, d, e);
      forall t | t in v.tasks ensures !Carries(v.tasks[t], d) {
        if Carries(v.tasks[t], d) {
          NoNewCarriers(cfg, w, d, e, t);
        }
      }
    case OfAgent(a) =>
      StepKeepsOff(cfg, w, a, e);
      forall t | t in v.tasks ensures !Accepts(v.tasks[t], a) {
        if Accepts(v.tasks[t], a) {
          NoNewAcceptance(cfg, w, a, e, t);
        }
      }
  }

  lemma StepKeepsInsertedBy(cfg: Config, w: World, m: Invalidation, deadline: int, e: Event)
    requires Timed(w) && Barred(w, m) && InsertedBy(w, m, deadline)
    ensures InsertedBy(Step(cfg, w, e), m, deadline)
  {
  }

  /** When each output was produced, in order. */
  function Times(cfg: Config, w: World, es: seq<Event>): (times: seq<int>)
    requires Timed(w)
    ensures |times| == |es|
    decreases es
  {
    if es == [] then [] else [Present(w).now] + Times(cfg, Step(cfg, w, es[0]), es[1..])
  }

  lemma {:induction false} OutputsCount(cfg: Config, w: World, es: seq<Event>)
    requires Timed(w)
    ensures |Outputs(cfg, w, es)| == |es|
    decreases es
  {
    if es != [] {
      OutputsCount(cfg, Step(cfg, w, es[0]), es[1..]);
    }
  }

  lemma ServedBeforeDeadline(cfg: Config, w: World, m: Invalidation, deadline: int, e: Event, r: nat)
    requires Timed(w) && Barred(w, m) && InsertedBy(w, m, deadline) && ServesHit(Observe(cfg, w, e), r, m)
    ensures Present(w).now < deadline + cfg.cacheTtl
  {
  }

  /** What the fading of an entry rests on, kept by every step that does not lift the bar. */
  ghost predicate Fading(w: World, m: Invalidation, deadline: int) {
    Inv(w) && Barred(w, m) && InsertedBy(w, m, deadline)
  }

  lemma StepKeepsFading(cfg: Config, w: World, m: Invalidation, deadline: int, e: Event)
    requires Fading(w, m, deadline) && !Lifts(e, m)
    ensures Fading(Step(cfg, w, e), m, deadline)
    ensures forall r: nat | ServesHit(Observe(cfg, w, e), r, m) :: Present(w).now < deadline + cfg.cacheTtl
  {
    StepKeepsInv(cfg, w, e);
    StepKeepsBarred(cfg, w, m, e);
    StepKeepsInsertedBy(cfg, w, m, deadline, e);
    forall r: nat | ServesHit(Observe(cfg, w, e), r, m) ensures Present(w).now < deadline + cfg.cacheTtl {
      ServedBeforeDeadline(cfg, w, m, deadline, e, r);
    }
  }

  /** The last service of what is barred comes within one TTL of its last insertion. */
  lemma {:induction false} BarredFades(cfg: Config, w: World, m: Invalidation, deadline: int, es: seq<Event>)
    requires Timed(w) && Fading(w, m, deadline)
    requires forall i | 0 <= i < |es| :: !Lifts(es[i], m)
    ensures |Outputs(cfg, w, es)| == |es|
    ensures forall i, r: nat | 0 <= i < |es| && ServesHit(Outputs(cfg, w, es)[i], r, m) ::
              Times(cfg, w, es)[i] < deadline + cfg.cacheTtl
    decreases es
  {
    OutputsCount(cfg, w, es);
    if es != [] {
      var v, rest := Step(cfg, w, es[0]), es[1..];
      StepKeepsFading(cfg, w, m, deadline, es[0]);
      BarredFades(cfg, v, m, deadline, rest);
      forall i, r: nat | 0 <= i < |es| && ServesHit(Outputs(cfg, w, es)[i], r, m)
        ensures Times(cfg, w, es)[i] < deadline + cfg.cacheTtl
      {
        assert i > 0 ==> Outputs(cfg, w, es)[i] == Outputs(cfg, v, rest)[i - 1];
        assert i > 0 ==> Times(cfg, w, es)[i] == Times(cfg, v, rest)[i - 1];
      }
    }
  }

  lemma AllInsertedByNow(w: World, m: Invalidation)
    requires Inv(w)
    ensures InsertedBy(w, m, Present(w).now)
  {
    forall r, h | 0 <= r < |w.replicas| && h in w.replicas[r].act
      ensures w.replicas[r].act[h].at <= Present(w).now
    {
      assert EntryOk(w.past, w.replicas[r], h);
    }
  }

  /**
    The TTL backstop: with a grant revoked and no resolve still carrying it, no
    replica serves it from one TTL later onward, even if every message is lost.
   */
  lemma RevocationWithinOneTtl(cfg: Config, w: World, d: string, es: seq<Event>)
    requires Reachable(cfg, w) && Timed(w) && Revoked(Present(w).st, d) && NoCarriers(w, d)
    ensures |Outputs(cfg, w, es)| == |es|
    ensures forall i, r: nat | 0 <= i < |es| && Serves(Outputs(cfg, w, es)[i], r, d) ::
              Times(cfg, w, es)[i] < Present(w).now + cfg.cacheTtl
  {
    ReachableInv(cfg, w);
    assert Known(Present(w).st, w.ids);
    AllInsertedByNow(w, OfDelegation(d));
    BarredFades(cfg, w, OfDelegation(d), Present(w).now, es);
  }

  /**
    The same for a disabled or deleted agent: with no resolve in flight that has
    read it as active, no replica serves a token of it from one TTL later onward,
    for as long as nothing enables it.
   */
  lemma DisableWithinOneTtl(cfg: Config, w: World, a: string, es: seq<Event>)
    requires Reachable(cfg, w) && AgentOff(w, a)
    requires forall t | t in w.tasks :: !Accepts(w.tasks[t], a)
    requires forall i | 0 <= i < |es| :: !Enables(es[i], a)
    ensures |Outputs(cfg, w, es)| == |es|
    ensures forall i, r: nat | 0 <= i < |es| && ServesAgent(Outputs(cfg, w, es)[i], r, a) ::
              Times(cfg, w, es)[i] < Present(w).now + cfg.cacheTtl
  {
    ReachableInv(cfg, w);
    AllInsertedByNow(w, OfAgent(a));
    BarredFades(cfg, w, OfAgent(a), Present(w).now, es);
  }

  /* ---- Exactly when a revoked and evicted grant can still be served ---- */

  /**
    A resolve at `r` that can still end in an acceptance of `d`: its ruling is in,
    or only its status read is missing and the agent still exists.
   */
  ghost predicate Threat(w: World, r: nat, d: string, t: nat)
    requires Timed(w)
  {
    && t in w.tasks && w.tasks[t].replica == r && Carries(w.tasks[t], d)
    && (w.tasks[t].phase.GotGrant? ==> w.tasks[t].phase.row.agent in Present(w).st.agents)
  }

  ghost predicate Safe(w: World, r: nat, d: string) {
    && GrantDead(w, d) && r < |w.replicas| && NoneHit(w.replicas[r].act, OfDelegation(d))
    && forall t :: !Threat(w, r, d, t)
  }

  lemma AgentGoneForGood(cfg: Config, w: World, e: Event, a: string)
    requires Timed(w) && a in w.ids && a !in Present(w).st.agents
    ensures a !in NextTables(cfg, w, e).agents
  {
  }

  lemma StepKeepsNoThreat(cfg: Config, w: World, r: nat, d: string, e: Event, t: nat)
    requires Inv(w) && Safe(w, r, d)
    ensures !Threat(Step(cfg, w, e), r, d, t)
  {
    if Threat(Step(cfg, w, e), r, d, t) {
      NoNewCarriers(cfg, w, d, e, t);
      assert !Threat(w, r, d, t);
      if w.tasks[t].phase.GotGrant? {
        CarrierIsKnown(w, t);
      }
      StuckStaysStuck(cfg, w, r, d, e, t);
    }
  }

  /** A carrier that is no threat because its agent is gone does not become one. */
  lemma StuckStaysStuck(cfg: Config, w: World, r: nat, d: string, e: Event, t: nat)
    requires Timed(w) && t in w.tasks && Carries(w.tasks[t], d) && !Threat(w, r, d, t)
    requires w.tasks[t].phase.GotGrant? ==> w.tasks[t].phase.row.agent in w.ids
    ensures !Threat(Step(cfg, w, e), r, d, t)
  {
    var task := w.tasks[t];
    if task.replica == r {
      AgentGoneForGood(cfg, w, e, task.phase.row.agent);
    }
  }

  lemma CarrierIsKnown(w: World, t: nat)
    requires Inv(w) && t in w.tasks && w.tasks[t].phase.GotGrant?
    ensures w.tasks[t].phase.row.agent in w.ids
  {
    assert TaskOk(w, w.tasks[t]);
    assert Known(w.past[w.tasks[t].phase.rowAt].st, w.ids);
  }

  lemma StepKeepsSafe(cfg: Config, w: World, r: nat, d: string, e: Event)
    requires Inv(w) && Safe(w, r, d)
    ensures Safe(Step(cfg, w, e), r, d) && !Serves(Observe(cfg, w, e), r, d)
  {
    var v := Step(cfg, w, e);
    StepKeepsDead(cfg, w, d, e);
    forall t ensures !Threat(v, r, d, t) {
      StepKeepsNoThreat(cfg, w, r, d, e, t);
    }
    if e.Advance? && e.task in w.tasks {
      assert !Threat(w, r, d, e.task);
    }
    forall h | h in v.replicas[r].act ensures !Hit(OfDelegation(d), v.replicas[r].act[h].value) {
      if !Inserts(w, e, r, h) {
        OtherEntries(cfg, w, e, r, h);
      }
    }
  }

  lemma {:induction false} SafeIsSilent(cfg: Config, w: World, r: nat, d: string, es: seq<Event>)
    requires Inv(w) && Safe(w, r, d)
    ensures forall o | o in Outputs(cfg, w, es) :: !Serves(o, r, d)
    decreases es
  {
    if es != [] {
      StepKeepsSafe(cfg, w, r, d, es[0]);
      StepKeepsInv(cfg, w, es[0]);
      SafeIsSilent(cfg, Step(cfg, w, es[0]), r, d, es[1..]);
    }
  }

  /** A continuation that lets a threat finish: re-activate the agent if need be, then advance. */
  function Finish(w: World, t: nat): seq<Event>
    requires Timed(w) && t in w.tasks
  {
    var phase := w.tasks[t].phase;
    if phase.GotGrant? && phase.row.agent in Present(w).st.agents then
      var tenant := Present(w).st.agents[phase.row.agent].tenant;
      [ChangeStatus(tenant, phase.row.agent, AGENT_STATUS_ACTIVE), Advance(t, true), Advance(t, true)]
    else
      [Advance(t, true)]
  }

  lemma ThreatCanServe(cfg: Config, w: World, r: nat, d: string, t: nat)
    requires Timed(w) && Threat(w, r, d, t) && TaskOk(w, w.tasks[t])
    ensures exists o :: o in Outputs(cfg, w, Finish(w, t)) && Serves(o, r, d)
  {
    var es := Finish(w, t);
    if w.tasks[t].phase.Decided? {
      assert Serves(Outputs(cfg, w, es)[0], r, d);
    } else {
      var w1 := Step(cfg, w, es[0]);
      var w2 := Step(cfg, w1, es[1]);
      assert w1.tasks == w.tasks && AgentActive(Present(w1).st, w.tasks[t].phase.row.agent);
      assert w2.tasks[t].phase.Decided?;
      assert Outputs(cfg, w2, [es[2]]) == [Observe(cfg, w2, es[2])];
      assert es[1..] == [es[1], es[2]] && es[1..][1..] == [es[2]];
      OutputsCount(cfg, w, es);
      assert Outputs(cfg, w, es)[2] == Observe(cfg, w2, es[2]);
      assert Serves(Outputs(cfg, w, es)[2], r, d);
    }
  }

  /**
    With a grant revoked and nothing for it cached at a replica, some future of
    the system still serves it there if and only if a resolve is in flight there
    that read the grant before it was revoked and can still be accepted.
   */
  lemma StillServableIffThreat(cfg: Config, w: World, r: nat, d: string)
    requires Reachable(cfg, w) && Timed(w) && r < |w.replicas|
    requires Revoked(Present(w).st, d) && NoneHit(w.replicas[r].act, OfDelegation(d))
    ensures (exists es, o :: o in Outputs(cfg, w, es) && Serves(o, r, d)) <==> (exists t :: Threat(w, r, d, t))
  {
    ReachableInv(cfg, w);
    assert Known(Present(w).st, w.ids);
    if t :| Threat(w, r, d, t) {
      assert TaskOk(w, w.tasks[t]);
      ThreatCanServe(cfg, w, r, d, t);
    } else {
      forall es, o | o in Outputs(cfg, w, es) ensures !Serves(o, r, d) {
        SafeIsSilent(cfg, w, r, d, es);
      }
    }
  }

  /* ---- Exactly when a disabled and evicted agent can still be served ---- */

  ghost predicate AgentSafe(w: World, r: nat, a: string) {
    && AgentOff(w, a) && r < |w.replicas| && NoneHit(w.replicas[r].act, OfAgent(a))
    && forall t | t in w.tasks && w.tasks[t].replica == r :: !Accepts(w.tasks[t], a)
  }

  lemma StepKeepsAgentSafe(cfg: Config, w: World, r: nat, a: string, e: Event)
    requires Inv(w) && AgentSafe(w, r, a) && !Enables(e, a)
    ensures AgentSafe(Step(cfg, w, e), r, a) && !ServesAgent(Observe(cfg, w, e), r, a)
  {
    var v := Step(cfg, w, e);
    StepKeepsOff(cfg, w, a, e);
    forall t | t in v.tasks && v.tasks[t].replica == r ensures !Accepts(v.tasks[t], a) {
      if Accepts(v.tasks[t], a) {
        NoNewAcceptance(cfg, w, a, e, t);
      }
    }
    forall h | h in v.replicas[r].act ensures !Hit(OfAgent(a), v.replicas[r].act[h].value) {
      if !Inserts(w, e, r, h) {
        OtherEntries(cfg, w, e, r, h);
      }
    }
  }

  lemma {:induction false} AgentSafeIsSilent(cfg: Config, w: World, r: nat, a: string, es: seq<Event>)
    requires Inv(w) && AgentSafe(w, r, a) && forall i | 0 <= i < |es| :: !Enables(es[i], a)
    ensures forall o | o in Outputs(cfg, w, es) :: !ServesAgent(o, r, a)
    decreases es
  {
    if es != [] {
      StepKeepsAgentSafe(cfg, w, r, a, es[0]);
      StepKeepsInv(cfg, w, es[0]);
      AgentSafeIsSilent(cfg, Step(cfg, w, es[0]), r, a, es[1..]);
    }
  }

  /** Output `o` occurs in some future in which nothing enables `a`. */
  ghost predicate MayOutput(cfg: Config, w: World, a: string, o: Output)
    requires Timed(w)
  {
    exists es: seq<Event> :: o in Outputs(cfg, w, es) && forall i | 0 <= i < |es| :: !Enables(es[i], a)
  }

  lemma AcceptedCanServe(cfg: Config, w: World, r: nat, a: string, t: nat) returns (o: Output)
    requires Timed(w) && t in w.tasks && w.tasks[t].replica == r && Accepts(w.tasks[t], a)
    ensures MayOutput(cfg, w, a, o) && ServesAgent(o, r, a)
  {
    var es := [Advance(t, true)];
    o := Observe(cfg, w, es[0]);
    OutputsCount(cfg, w, es);
    assert Outputs(cfg, w, es)[0] == o;
  }

  lemma AgentSafeForGood(cfg: Config, w: World, r: nat, a: string)
    requires Inv(w) && AgentSafe(w, r, a)
    ensures forall o | MayOutput(cfg, w, a, o) :: !ServesAgent(o, r, a)
  {
    forall o | MayOutput(cfg, w, a, o) ensures !ServesAgent(o, r, a) {
      var es: seq<Event> :| o in Outputs(cfg, w, es) && forall i | 0 <= i < |es| :: !Enables(es[i], a);
      AgentSafeIsSilent(cfg, w, r, a, es);
    }
  }

  /**
    With an agent off and nothing for it cached at a replica, some future in
    which it stays off still serves it there if and only if a resolve is in
    flight there that read its status before it was switched off.
   */
  lemma AgentServableIffAccepted(cfg: Config, w: World, r: nat, a: string)
    requires Reachable(cfg, w) && AgentOff(w, a) && r < |w.replicas|
    requires NoneHit(w.replicas[r].act, OfAgent(a))
    ensures (exists o :: MayOutput(cfg, w, a, o) && ServesAgent(o, r, a)) <==>
            (exists t :: t in w.tasks && w.tasks[t].replica == r && Accepts(w.tasks[t], a))
  {
    ReachableInv(cfg, w);
    if t :| t in w.tasks && w.tasks[t].replica == r && Accepts(w.tasks[t], a) {
      var o := AcceptedCanServe(cfg, w, r, a, t);
    } else {
      AgentSafeForGood(cfg, w, r, a);
    }
  }
}
