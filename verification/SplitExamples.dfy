/**
  One interleaving in which revocation is not immediate: a resolve reads the
  grant, the grant is revoked and the replica evicts, and the resolve's insert
  lands afterwards. The token is then served from the cache of a replica that
  has already applied the invalidation.
 */
module SplitExamples {
  import opened Wrappers
  import opened AgentStores
  import opened SplitProtocol
  import opened SplitTheorems

  const CFG := Config(10, 100)
  const ROW := Delegation("t", "a", "u", [], 1000, None)
  const TOKEN := ActToken("d", "t", "a", "u", [], 100)

  /** The tables with the grant live or revoked at time 0. */
  function Tables(revokedAt: Option<int>): Stores {
    Stores(map["a" := Agent("t", AGENT_STATUS_ACTIVE)], map["d" := ROW.(revokedAt := revokedAt)], map["h" := TOKEN])
  }

  /** A world of one replica at time 0, with the given grant, flights and cached answer. */
  ghost predicate At(w: World, revokedAt: Option<int>, tasks: map<nat, Task>, act: ActCache) {
    && Timed(w) && Present(w) == Moment(0, Tables(revokedAt))
    && w.tasks == tasks && w.begun == {0}
    && |w.replicas| == 1 && w.replicas[0].act == act
  }

  function Flight(phase: Phase): map<nat, Task> {
    map[0 := Task(0, "h", phase)]
  }

  const SETUP: seq<Event> := [Register("a", "t"), Grant("d", ROW), Mint("h", "d"), Begin(0, 0, "h")]

  const READS: seq<Event> := [Advance(0, true), Advance(0, true), Advance(0, true)]

  /** The revocation and the eviction it causes, between two steps of the resolve. */
  const REVOKE: seq<Event> := [RevokeGrant("t", "d"), Evict(0, OfDelegation("d"))]

  /** The resolve reads the status and inserts its answer. */
  const FINISH: seq<Event> := [Advance(0, true), Advance(0, true)]

  lemma RunStep(cfg: Config, w: World, e: Event, es: seq<Event>)
    requires Timed(w)
    ensures Run(cfg, w, [e] + es) == Run(cfg, Step(cfg, w, e), es)
  {
    assert ([e] + es)[1..] == es;
  }

  lemma {:induction false} RunSplit(cfg: Config, w: World, es: seq<Event>, fs: seq<Event>)
    requires Timed(w)
    ensures Run(cfg, w, es + fs) == Run(cfg, Run(cfg, w, es), fs)
    decreases es
  {
    if es == [] {
      assert es + fs == fs;
    } else {
      assert (es + fs)[1..] == es[1..] + fs;
      RunSplit(cfg, Step(cfg, w, es[0]), es[1..], fs);
    }
  }

  /** Four steps at once. */
  lemma RunFour(cfg: Config, w: World, a: Event, b: Event, c: Event, d: Event)
    requires Timed(w)
    ensures Run(cfg, w, [a, b, c, d]) == Step(cfg, Step(cfg, Step(cfg, Step(cfg, w, a), b), c), d)
  {
    assert [a, b, c, d] == [a] + ([b] + ([c] + ([d] + [])));
    RunStep(cfg, w, a, [b] + ([c] + ([d] + [])));
    RunStep(cfg, Step(cfg, w, a), b, [c] + ([d] + []));
    RunStep(cfg, Step(cfg, Step(cfg, w, a), b), c, [d] + []);
    RunStep(cfg, Step(cfg, Step(cfg, Step(cfg, w, a), b), c), d, []);
  }

  lemma SetupSteps()
    ensures At(Run(CFG, Initial(1, 0), SETUP), None, Flight(Missed), map[])
  {
    var w3 := Step(CFG, Step(CFG, Step(CFG, Initial(1, 0), SETUP[0]), SETUP[1]), SETUP[2]);
    RunFour(CFG, Initial(1, 0), SETUP[0], SETUP[1], SETUP[2], SETUP[3]);
    assert SETUP == [SETUP[0], SETUP[1], SETUP[2], SETUP[3]];
    assert Present(w3).st.agents == Tables(None).agents;
  }

  lemma ReadSteps(w: World) returns (phase: Phase)
    requires At(w, None, Flight(Missed), map[])
    ensures phase.GotGrant? && phase.row == TOKEN
    ensures At(Run(CFG, w, READS), None, Flight(phase), map[])
  {
    var w1 := Step(CFG, w, READS[0]);
    var w2 := Step(CFG, w1, READS[1]);
    assert READS == [READS[0]] + ([READS[1]] + ([READS[2]] + []));
    RunStep(CFG, w, READS[0], [READS[1]] + ([READS[2]] + []));
    RunStep(CFG, w1, READS[1], [READS[2]] + []);
    RunStep(CFG, w2, READS[2], []);
    assert At(w1, None, Flight(GotRow(TOKEN, |w.past| - 1)), map[]);
    assert At(w2, None, Flight(Clocked(TOKEN, |w.past| - 1, |w.past|, 0)), map[]);
    phase := GotGrant(TOKEN, |w.past| - 1, |w.past|, |w.past| + 1);
  }

  lemma RunTwo(cfg: Config, w: World, a: Event, b: Event)
    requires Timed(w)
    ensures Run(cfg, w, [a, b]) == Step(cfg, Step(cfg, w, a), b)
  {
    assert [a, b] == [a] + ([b] + []);
    RunStep(cfg, w, a, [b] + []);
    RunStep(cfg, Step(cfg, w, a), b, []);
  }

  lemma RevokeSteps(w: World, phase: Phase)
    requires phase.GotGrant? && phase.row == TOKEN && At(w, None, Flight(phase), map[])
    ensures At(Run(CFG, w, REVOKE), Some(0), Flight(phase), map[])
  {
    RunTwo(CFG, w, REVOKE[0], REVOKE[1]);
    assert REVOKE == [REVOKE[0], REVOKE[1]];
    assert At(Step(CFG, w, REVOKE[0]), Some(0), Flight(phase), map[]);
  }

  lemma FinishSteps(w: World, phase: Phase)
    requires phase.GotGrant? && phase.row == TOKEN && At(w, Some(0), Flight(phase), map[])
    ensures At(Run(CFG, w, FINISH), Some(0), map[], map["h" := Entry(Some(Claims(TOKEN)), 0)])
  {
    var w1 := Step(CFG, w, FINISH[0]);
    RunTwo(CFG, w, FINISH[0], FINISH[1]);
    assert FINISH == [FINISH[0], FINISH[1]];
    assert w1.tasks == Flight(w1.tasks[0].phase);
  }

  lemma RaceFrom(i: World, setup: seq<Event>, steps: seq<Event>, revoke: seq<Event>, finish: seq<Event>)
    requires Timed(i) && steps == READS && revoke == REVOKE && finish == FINISH
    requires At(Run(CFG, i, setup), None, Flight(Missed), map[])
    ensures exists phase :: At(Run(CFG, i, setup + steps + revoke), Some(0), Flight(phase), map[])
    ensures Run(CFG, i, setup + steps + revoke + finish) == Run(CFG, Run(CFG, i, setup + steps + revoke), finish)
    ensures At(Run(CFG, i, setup + steps + revoke + finish), Some(0), map[], map["h" := Entry(Some(Claims(TOKEN)), 0)])
  {
    var phase := ReadSteps(Run(CFG, i, setup));
    RunSplit(CFG, i, setup, steps);
    RevokeSteps(Run(CFG, i, setup + steps), phase);
    RunSplit(CFG, i, setup + steps, revoke);
    FinishSteps(Run(CFG, i, setup + steps + revoke), phase);
    RunSplit(CFG, i, setup + steps + revoke, finish);
  }

  lemma RaceServes(w: World)
    requires At(w, Some(0), map[], map["h" := Entry(Some(Claims(TOKEN)), 0)])
    ensures Revoked(Present(w).st, "d") && Serves(Observe(CFG, w, Begin(1, 0, "h")), 0, "d")
  {
  }

  /**
    The race: the run up to the eviction ends with the grant revoked and nothing
    for it in the replica's cache, and no further revoke or eviction is due. Once
    the resolve in flight has finished, the next lookup is a hit that serves it.
   */
  lemma EvictionRace() returns (evicted: World, w: World)
    ensures REVOKE == [RevokeGrant("t", "d"), Evict(0, OfDelegation("d"))]
    ensures evicted == Run(CFG, Initial(1, 0), SETUP + READS + REVOKE)
    ensures Reachable(CFG, evicted) && Timed(evicted) && |evicted.replicas| == 1
    ensures Revoked(Present(evicted).st, "d") && NoneHit(evicted.replicas[0].act, OfDelegation("d"))
    ensures w == Run(CFG, evicted, FINISH) && FINISH == [Advance(0, true), Advance(0, true)]
    ensures Reachable(CFG, w) && Timed(w) && w.tasks == map[]
    ensures Revoked(Present(w).st, "d") && Serves(Observe(CFG, w, Begin(1, 0, "h")), 0, "d")
  {
    SetupSteps();
    RaceFrom(Initial(1, 0), SETUP, READS, REVOKE, FINISH);
    evicted := Run(CFG, Initial(1, 0), SETUP + READS + REVOKE);
    w := Run(CFG, Initial(1, 0), SETUP + READS + REVOKE + FINISH);
    RaceServes(w);
  }
}
