/** Whole-run theorems: after any sequence of events from start-up, the caches equal the from-scratch
    definition, and what follows from that for pairs and limits. */
module Runs {
  import opened Common
  import opened Config
  import opened ArbiterState
  import opened Agreement
  import opened Tasks

  // ---- agreement is an invariant ------------------------------------------------------------

  /** Re-arbitrating resources one by one settles each of them for good, in whatever order they come. */
  lemma {:induction false} ArbitrateAllSettles(cfg: Config, s: Arb, done: set<int>, order: seq<int>)
    requires Partial(cfg, s, done) && forall r :: r in order ==> r in cfg.nodes
    ensures Partial(cfg, ArbitrateAll(cfg, s, order), done + Elements(order))
    decreases |order|
  {
    hide CandOk, DecideOk, CurOk, Arbitrate, WfConfig;
    if order == [] {
      assert done + Elements(order) == done;
    } else {
      SettleOne(cfg, s, done, order[0]);
      ArbitrateAllSettles(cfg, Arbitrate(cfg, s, order[0]), done + {order[0]}, order[1..]);
      ElementsCons(order);
      assert done + Elements(order) == done + {order[0]} + Elements(order[1..]);
    }
  }

  function Elements(order: seq<int>): set<int> {
    set r | r in order
  }

  lemma ElementsCons(order: seq<int>)
    requires order != []
    ensures Elements(order) == {order[0]} + Elements(order[1..])
  {
    assert order == [order[0]] + order[1..];
  }

  lemma SettleOne(cfg: Config, s: Arb, done: set<int>, r: int)
    requires Partial(cfg, s, done) && r in cfg.nodes
    ensures Partial(cfg, Arbitrate(cfg, s, r), done + {r})
  {
    hide Arbitrate, DecideOk, CurOk, CandOk;
    ArbitrateSettles(cfg, s, done, r);
  }

  lemma SwitchAgrees(cfg: Config, s: Arb, power: bool, thermal: bool, order: seq<int>)
    requires Agrees(cfg, s) && Visits(order, cfg.nodes.Keys)
    ensures Agrees(cfg, ArbitrateAll(cfg, s.(power := power, thermal := thermal), order))
  {
    hide DecideOk, CurOk, CandOk;
    ArbitrateAllSettles(cfg, s.(power := power, thermal := thermal), {}, order);
    assert forall r :: r in {} + Elements(order) <==> r in order;
    assert forall r :: r in cfg.nodes.Keys <==> r in order;
    assert {} + Elements(order) == cfg.nodes.Keys;
  }

  lemma ApplyAgrees(cfg: Config, s: Arb, op: Op)
    requires Agrees(cfg, s) && OpOk(cfg, op)
    ensures Agrees(cfg, Apply(cfg, s, op))
  {
    hide Agrees, DoInstant, DoExpire, ClearOne;
    match op
    case Begin(r, a) => InstantAgrees(cfg, s, r, a);
    case End(r, a) => ExpireAgrees(cfg, s, r, a);
    case ClearPerf(r) => ClearOneAgrees(cfg, s, r);
    case SwitchPower(on, order) => SwitchAgrees(cfg, s, on, s.thermal, order);
    case SwitchThermal(on, order) => SwitchAgrees(cfg, s, s.power, on, order);
    case Level(level) => LevelAgrees(cfg, s, level);
  }

  lemma LevelAgrees(cfg: Config, s: Arb, level: int)
    requires Agrees(cfg, s)
    ensures Agrees(cfg, s.(level := level))
  {
    SameCachesAgree(cfg, s, s.(level := level));
  }

  lemma {:induction false} ApplyAllAgrees(cfg: Config, s: Arb, ops: seq<Op>)
    requires Agrees(cfg, s) && OpsOk(cfg, ops)
    ensures Agrees(cfg, ApplyAll(cfg, s, ops))
    decreases |ops|
  {
    hide CandOk, DecideOk, CurOk, Apply, OpOk;
    if ops != [] {
      ApplyAgrees(cfg, s, ops[0]);
      ApplyAllAgrees(cfg, Apply(cfg, s, ops[0]), ops[1..]);
    }
  }

  lemma ReachAgrees(cfg: Config, es: seq<Event>)
    requires WfConfig(cfg) && EventsOk(cfg, es)
    ensures Agrees(cfg, Reach(cfg, es))
  {
    InitAgrees(cfg);
    RunIsOps(cfg, InitArb(cfg), es);
    ApplyAllAgrees(cfg, InitArb(cfg), RunOps(cfg, es));
  }

  /** Incremental equals from scratch: after every run, every cached number of every resource is what
      the live lists, the switches and the recorded thermal levels say it should be. */
  lemma IncrementalIsFromScratch(cfg: Config, es: seq<Event>, r: int)
    requires WfConfig(cfg) && EventsOk(cfg, es) && r in cfg.nodes
    ensures Reach(cfg, es).info[r] == Rebuilt(cfg, Reach(cfg, es), r)
  {
    ReachAgrees(cfg, es);
    AgreesMeans(cfg, Reach(cfg, es), r);
  }
}
