/**
  One run that shows the stale negative answer is real: a comment in the agent
  service says that re-enabling an agent takes effect immediately, but eviction
  keeps negative entries, so the agent's tokens stay refused for up to a TTL.
 */
module AtomicExamples {
  import opened Wrappers
  import opened AgentStores
  import opened AtomicProtocol
  import opened AtomicTheorems

  const CFG := Config(10, 100, true)
  const ROW := Delegation("t", "a", "u", ["tenant:read"], 1000, None)
  const OWED: set<(nat, Invalidation)> := {(0, OfAgent("a"))}

  const SETUP: seq<Event> := [Register("a", "t"), Grant("d", ROW), Mint("h", "d")]

  /** Disable, present the token, re-enable, invalidate. */
  const REENABLE: seq<Event> := [
    ChangeStatus(0, "t", "a", "disabled"), ResolveToken(0, "h", ALL_UP),
    ChangeStatus(0, "t", "a", AGENT_STATUS_ACTIVE), Invalidate(0, OfAgent("a"))]

  function Tables(status: string): Stores {
    Stores(map["a" := Agent("t", status)], map["d" := ROW],
           map["h" := ActToken("d", "t", "a", "u", ["tenant:read"], 100)])
  }

  function At(status: string, refused: bool, owed: set<(nat, Invalidation)>): World {
    var rep := if refused then Replica(map["h" := Entry(None, 0)], map[], map["h" := Tables("disabled")])
               else Replica(map[], map[], map[]);
    World(0, Tables(status), [rep], owed, {}, {}, {"a", "d"}, {"h"})
  }

  lemma {:induction false} RunSplit(cfg: Config, w: World, es: seq<Event>, fs: seq<Event>)
    ensures Run(cfg, w, es + fs) == Run(cfg, Run(cfg, w, es), fs)
    decreases es
  {
    if es == [] {
      assert es + fs == fs;
    } else {
      assert (es + fs)[1..] == es[1..] + fs;
      RunSplit(cfg, Step(cfg, w, es[0]), es[1..], fs);
    }
  }

  lemma RunStep(cfg: Config, w: World, e: Event, es: seq<Event>)
    ensures Run(cfg, w, [e] + es) == Run(cfg, Step(cfg, w, e), es)
  {
    assert ([e] + es)[1..] == es;
  }

  lemma SetupReaches()
    ensures Run(CFG, Initial(1, 0), SETUP) == At(AGENT_STATUS_ACTIVE, false, {})
  {
    var w := Initial(1, 0);
    var w1 := Step(CFG, w, SETUP[0]);
    var w2 := Step(CFG, w1, SETUP[1]);
    var w3 := Step(CFG, w2, SETUP[2]);
    assert SETUP == [SETUP[0]] + ([SETUP[1]] + ([SETUP[2]] + []));
    RunStep(CFG, w, SETUP[0], [SETUP[1]] + ([SETUP[2]] + []));
    RunStep(CFG, w1, SETUP[1], [SETUP[2]] + []);
    RunStep(CFG, w2, SETUP[2], []);
    assert w3.st.agents == Tables(AGENT_STATUS_ACTIVE).agents;
    assert w3.replicas == At(AGENT_STATUS_ACTIVE, false, {}).replicas;
  }

  lemma ReenableSteps()
    ensures Step(CFG, At(AGENT_STATUS_ACTIVE, false, {}), REENABLE[0]) == At("disabled", false, OWED)
    ensures Step(CFG, At("disabled", false, OWED), REENABLE[1]) == At("disabled", true, OWED)
    ensures Step(CFG, At("disabled", true, OWED), REENABLE[2]) == At(AGENT_STATUS_ACTIVE, true, OWED)
  {
  }

  lemma InvalidateKeepsRefusal()
    ensures Step(CFG, At(AGENT_STATUS_ACTIVE, true, OWED), REENABLE[3]) == At(AGENT_STATUS_ACTIVE, true, {})
  {
    var w := At(AGENT_STATUS_ACTIVE, true, OWED);
    var v := Step(CFG, w, REENABLE[3]);
    assert Others(w, 0, OfAgent("a")) == {};
    assert v.replicas[0].act == w.replicas[0].act;
  }

  /**
    After that run nothing is owed, in flight or lost, the tables accept the
    token, and the only replica still answers that there is no such token.
   */
  lemma ReenableIsNotImmediate()
    ensures var w := Run(CFG, Initial(1, 0), SETUP + REENABLE);
            && Reachable(CFG, w) && |w.replicas| == 1
            && (forall m :: !Covered(w, 0, m))
            && Fresh(w.st, "h", w.now).Some?
            && Observe(CFG, w, ResolveToken(0, "h", ALL_UP)).answer == Ok(None)
            && StaleNegative(CFG, w, 0, "h")
  {
    SetupReaches();
    ReenableSteps();
    InvalidateKeepsRefusal();
    RunSplit(CFG, Initial(1, 0), SETUP, REENABLE);
    assert REENABLE == [REENABLE[0]] + ([REENABLE[1]] + ([REENABLE[2]] + ([REENABLE[3]] + [])));
    RunStep(CFG, At(AGENT_STATUS_ACTIVE, false, {}), REENABLE[0],
        [REENABLE[1]] + ([REENABLE[2]] + ([REENABLE[3]] + [])));
    RunStep(CFG, At("disabled", false, OWED), REENABLE[1], [REENABLE[2]] + ([REENABLE[3]] + []));
    RunStep(CFG, At("disabled", true, OWED), REENABLE[2], [REENABLE[3]] + []);
    RunStep(CFG, At(AGENT_STATUS_ACTIVE, true, OWED), REENABLE[3], []);
  }
}
