/**
  A resolve that nothing interrupts. Its steps in a row answer and cache what
  the one-step resolve does, so the split protocol adds interleavings and
  nothing else.
 */
module SplitRefinement {
  import opened Wrappers
  import opened DbErrors
  import opened AgentStores
  import opened SplitProtocol

  /** A world in which task `t` is in flight for `h` at replica `r`. */
  ghost predicate InFlight(w: World, t: nat, r: nat, h: string, phase: Phase) {
    && Timed(w) && r < |w.replicas|
    && t in w.tasks && w.tasks[t] == Task(r, h, phase)
  }

  ghost predicate OnlyAdvances(es: seq<Event>, t: nat) {
    forall i | 0 <= i < |es| :: es[i] == Advance(t, true)
  }

  /** The run `es` ends with `answer` served and cached for `h` at replica `r`, and nothing else changed. */
  ghost predicate Concludes(cfg: Config, w: World, es: seq<Event>, r: nat, h: string, answer: Option<Resolution>)
    requires Timed(w) && r < |w.replicas|
  {
    var v := Run(cfg, w, es);
    var outputs := Outputs(cfg, w, es);
    && |outputs| == |es| > 0 && outputs[|es| - 1] == Served(r, h, Ok(answer))
    && (forall i | 0 <= i < |es| - 1 :: outputs[i] == Silent)
    && Present(v) == Present(w) && |v.replicas| == |w.replicas|
    && v.replicas[r].act == w.replicas[r].act[h := Entry(answer, Present(w).now)]
    && (forall q | 0 <= q < |w.replicas| && q != r :: v.replicas[q] == w.replicas[q])
  }

  /** One silent step in front of a concluding run. */
  lemma Prepend(cfg: Config, w: World, e: Event, es: seq<Event>, r: nat, h: string, answer: Option<Resolution>)
    requires Timed(w) && r < |w.replicas| && Observe(cfg, w, e) == Silent
    requires Present(Step(cfg, w, e)) == Present(w) && Step(cfg, w, e).replicas == w.replicas
    requires Concludes(cfg, Step(cfg, w, e), es, r, h, answer)
    ensures Concludes(cfg, w, [e] + es, r, h, answer)
  {
    assert ([e] + es)[1..] == es;
    var outputs := Outputs(cfg, w, [e] + es);
    assert outputs == [Silent] + Outputs(cfg, Step(cfg, w, e), es);
  }

  lemma FromDecided(cfg: Config, w: World, t: nat, r: nat, h: string, ruling: Ruling) returns (es: seq<Event>)
    requires InFlight(w, t, r, h, Decided(ruling))
    ensures OnlyAdvances(es, t) && Concludes(cfg, w, es, r, h, Answer(ruling))
  {
    es := [Advance(t, true)];
    var v := Step(cfg, w, es[0]);
    assert es[1..] == [];
    assert Outputs(cfg, w, es) == [Observe(cfg, w, es[0])];
    assert Run(cfg, w, es) == v;
  }

  /** A read moves the task one phase on and changes nothing else. */
  lemma ReadStep(cfg: Config, w: World, t: nat, r: nat, h: string, phase: Phase)
    requires InFlight(w, t, r, h, phase) && !phase.Decided? && NextPhase(w, w.tasks[t], true).Some?
    ensures var v := Step(cfg, w, Advance(t, true));
            && InFlight(v, t, r, h, NextPhase(w, w.tasks[t], true).value)
            && Present(v) == Present(w) && v.replicas == w.replicas
            && Observe(cfg, w, Advance(t, true)) == Silent
  {
  }

  lemma FromGrant(cfg: Config, w: World, t: nat, r: nat, h: string, phase: Phase) returns (es: seq<Event>)
    requires InFlight(w, t, r, h, phase) && phase.GotGrant?
    ensures OnlyAdvances(es, t)
    ensures var answer := if AgentActive(Present(w).st, phase.row.agent) then Some(Claims(phase.row)) else None;
            Concludes(cfg, w, es, r, h, answer)
  {
    ReadStep(cfg, w, t, r, h, phase);
    var next := NextPhase(w, w.tasks[t], true).value;
    var rest := FromDecided(cfg, Step(cfg, w, Advance(t, true)), t, r, h, next.ruling);
    Prepend(cfg, w, Advance(t, true), rest, r, h, Answer(next.ruling));
    es := [Advance(t, true)] + rest;
  }

  /** What a row amounts to once its own expiry has been checked. */
  function Judge(st: Stores, row: ActToken, now: int): Option<Resolution> {
    ValidateRow(st, row, now, ALL_UP).value
  }

  lemma FromClock(cfg: Config, w: World, t: nat, r: nat, h: string, phase: Phase) returns (es: seq<Event>)
    requires InFlight(w, t, r, h, phase) && phase.Clocked?
    requires phase.clock == Present(w).now < phase.row.expiresAt
    ensures OnlyAdvances(es, t)
    ensures Concludes(cfg, w, es, r, h, Judge(Present(w).st, phase.row, Present(w).now))
  {
    ReadStep(cfg, w, t, r, h, phase);
    var v := Step(cfg, w, Advance(t, true));
    var next := NextPhase(w, w.tasks[t], true).value;
    var rest;
    if next.Decided? {
      rest := FromDecided(cfg, v, t, r, h, next.ruling);
    } else {
      rest := FromGrant(cfg, v, t, r, h, next);
    }
    Prepend(cfg, w, Advance(t, true), rest, r, h, Judge(Present(w).st, phase.row, Present(w).now));
    es := [Advance(t, true)] + rest;
  }

  lemma FromRow(cfg: Config, w: World, t: nat, r: nat, h: string, phase: Phase) returns (es: seq<Event>)
    requires InFlight(w, t, r, h, phase) && phase.GotRow?
    ensures OnlyAdvances(es, t)
    ensures Concludes(cfg, w, es, r, h, Judge(Present(w).st, phase.row, Present(w).now))
  {
    ReadStep(cfg, w, t, r, h, phase);
    var v := Step(cfg, w, Advance(t, true));
    var next := NextPhase(w, w.tasks[t], true).value;
    var rest;
    if next.Decided? {
      rest := FromDecided(cfg, v, t, r, h, next.ruling);
    } else {
      rest := FromClock(cfg, v, t, r, h, next);
    }
    Prepend(cfg, w, Advance(t, true), rest, r, h, Judge(Present(w).st, phase.row, Present(w).now));
    es := [Advance(t, true)] + rest;
  }

  lemma FromMiss(cfg: Config, w: World, t: nat, r: nat, h: string) returns (es: seq<Event>)
    requires InFlight(w, t, r, h, Missed)
    ensures OnlyAdvances(es, t)
    ensures Concludes(cfg, w, es, r, h, Fresh(Present(w).st, h, Present(w).now))
  {
    ReadStep(cfg, w, t, r, h, Missed);
    var v := Step(cfg, w, Advance(t, true));
    var next := NextPhase(w, w.tasks[t], true).value;
    var rest;
    if next.Decided? {
      rest := FromDecided(cfg, v, t, r, h, next.ruling);
    } else {
      rest := FromRow(cfg, v, t, r, h, next);
    }
    Prepend(cfg, w, Advance(t, true), rest, r, h, Fresh(Present(w).st, h, Present(w).now));
    es := [Advance(t, true)] + rest;
  }

  /**
    From any world, a resolve that misses the cache and is then left alone
    answers, and leaves in the cache, exactly what the one-step resolve does.
   */
  lemma UninterruptedResolve(cfg: Config, w: World, t: nat, r: nat, h: string) returns (es: seq<Event>)
    requires Timed(w) && r < |w.replicas| && t !in w.begun
    requires Lookup(w.replicas[r].act, h, Present(w).now, cfg.cacheTtl).None?
    ensures es != [] && es[0] == Begin(t, r, h) && OnlyAdvances(es[1..], t)
    ensures var (answer, act) := Resolve(Present(w).st, w.replicas[r].act, h, Present(w).now, cfg.cacheTtl, ALL_UP);
            && answer.Ok? && Concludes(cfg, w, es, r, h, answer.value)
            && Run(cfg, w, es).replicas[r].act == act
  {
    var begin := Begin(t, r, h);
    var v := Step(cfg, w, begin);
    assert InFlight(v, t, r, h, Missed);
    var rest := FromMiss(cfg, v, t, r, h);
    Prepend(cfg, w, begin, rest, r, h, Fresh(Present(w).st, h, Present(w).now));
    es := [begin] + rest;
    assert es[1..] == rest;
  }

  /** A hit answers at once, like the one-step resolve, and changes nothing. */
  lemma HitIsTheSame(cfg: Config, w: World, t: nat, r: nat, h: string)
    requires Timed(w) && r < |w.replicas| && t !in w.begun
    requires Lookup(w.replicas[r].act, h, Present(w).now, cfg.cacheTtl).Some?
    ensures var (answer, act) := Resolve(Present(w).st, w.replicas[r].act, h, Present(w).now, cfg.cacheTtl, ALL_UP);
            && Observe(cfg, w, Begin(t, r, h)) == Served(r, h, answer)
            && act == w.replicas[r].act && Step(cfg, w, Begin(t, r, h)).replicas == w.replicas
  {
  }

  /** An eviction leaves nothing that its message hits at the replica, and all the rest. */
  lemma EvictionClears(cfg: Config, w: World, r: nat, m: Invalidation, h: string)
    requires Timed(w) && r < |w.replicas|
    ensures var v := Step(cfg, w, Evict(r, m));
            && |v.replicas| == |w.replicas| && NoneHit(v.replicas[r].act, m)
            && (h in w.replicas[r].act && !Hit(m, w.replicas[r].act[h].value) ==>
                  h in v.replicas[r].act && v.replicas[r].act[h] == w.replicas[r].act[h])
            && (forall q | 0 <= q < |w.replicas| && q != r :: v.replicas[q] == w.replicas[q])
            && v.tasks == w.tasks && Present(v) == Present(w)
  {
  }

  /** A read that fails ends the resolve with an error and caches nothing. */
  lemma FailedReadCachesNothing(cfg: Config, w: World, t: nat, r: nat, h: string, phase: Phase)
    requires InFlight(w, t, r, h, phase) && (phase.Missed? || phase.Clocked? || phase.GotGrant?)
    ensures Observe(cfg, w, Advance(t, false)) == Served(r, h, Err(Unavailable))
    ensures var v := Step(cfg, w, Advance(t, false)); v.replicas == w.replicas && t !in v.tasks
  {
  }
}
