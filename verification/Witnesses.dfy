/** Reachable runs of a one-resource service in which the failing side of each exact condition is met. */
module Witnesses {
  import opened Common
  import opened Config
  import opened LiveList
  import opened Arbitration
  import opened ArbiterState
  import opened Agreement
  import opened Tasks
  import opened System
  import opened SystemRuns
  import opened RequestChain
  import opened Requests
  import opened OffRequests
  import opened RunTheorems
  import opened Staleness
  import opened LimitProtocol
  import opened ArbiterFacts

  const RES_ID: int := 1000

  /** One frequency without a partner. */
  function OneResource(): Config {
    Config(map[RES_ID := ResourceNode(false, true, INVALID_VALUE, true, {})], false)
  }

  function Untimed(id: nat, value: int, kind: int, interaction: bool): ResAction {
    ResAction(id, value, 0, kind, EventOn, 1, MAX_INT_VALUE, interaction)
  }

  function Asking(a: ResAction, b: ResAction): Event {
    Do(Pack([Item(RES_ID, a), Item(RES_ID, b)]), [RES_ID])
  }

  lemma OneResourceOk()
    ensures WfConfig(OneResource()) && Visits([RES_ID], OneResource().nodes.Keys)
    ensures RES_ID in OneResource().nodes && PairOf(OneResource(), RES_ID) == None
  {
  }

  lemma AskingIs(s: Arb, a: ResAction, b: ResAction)
    requires Ready(OneResource(), s) && a.Valid() && b.Valid() && WfConfig(OneResource())
    ensures EventOk(OneResource(), Asking(a, b)) && RES_ID in OneResource().nodes
    ensures Step(OneResource(), s, Asking(a, b)) == DoInstant(OneResource(), DoInstant(OneResource(), s, RES_ID, a), RES_ID, b)
  {
    var cfg, items := OneResource(), [Item(RES_ID, a), Item(RES_ID, b)];
    OneResourceOk();
    hide DoInstant, WfConfig;
    assert items[1..] == [Item(RES_ID, b)] && items[1..][1..] == [];
    PackOpsCons(cfg, s, items);
    PackOpsCons(cfg, DoInstant(cfg, s, RES_ID, a), items[1..]);
    assert PackOps(cfg, items[1..][1..]) == [];
  }

  /** Two requests of different kinds, filed where nothing was. */
  lemma AskingLists(s: Arb, a: ResAction, b: ResAction)
    requires WfConfig(OneResource()) && Ready(OneResource(), s) && a.Valid() && b.Valid() && a.onOff == EventOn && b.onOff == EventOn && a.kind != b.kind
    requires RES_ID in s.info && s.info[RES_ID].lists[a.kind] == [] && s.info[RES_ID].lists[b.kind] == []
    ensures EventOk(OneResource(), Asking(a, b))
    ensures var t := Step(OneResource(), s, Asking(a, b));
      t.info[RES_ID].lists == s.info[RES_ID].lists[a.kind := [a]][b.kind := [b]] && t.power == s.power && t.thermal == s.thermal && t.level == s.level
  {
    OneResourceOk();
    AskingIs(s, a, b);
    hide DoInstant, WfConfig;
    var cfg := OneResource();
    InstantFrame(cfg, s, RES_ID, a);
    InstantFrame(cfg, DoInstant(cfg, s, RES_ID, a), RES_ID, b);
    assert Instant([], a) == [a] && Instant([], b) == [b];
  }

  /** A boost of 5 and a performance level of 9 while the device is cold; then it turns hot. The candidate stays
      at 5 although 9 is wanted now. */
  lemma StaleCandidate()
    ensures var cfg, es := OneResource(), [Asking(Untimed(0, 5, PERF, false), Untimed(1, 9, PERFLVL, false)), SetLevel(1)];
      && WfConfig(cfg) && EventsOk(cfg, es) && RES_ID in cfg.nodes
      && Reach(cfg, es).info[RES_ID].candidate != RebuiltNow(cfg, Reach(cfg, es), RES_ID).candidate
      && Reach(cfg, es).info[RES_ID].currentValue != RebuiltNow(cfg, Reach(cfg, es), RES_ID).currentValue
  {
    var cfg, a, b := OneResource(), Untimed(0, 5, PERF, false), Untimed(1, 9, PERFLVL, false);
    var e, hot := Asking(a, b), SetLevel(1);
    OneResourceOk();
    var s0 := InitArb(cfg);
    AskingLists(s0, a, b);
    assert a.value < b.value && EventOk(cfg, hot) && s0.info[RES_ID].lists == InitStatus.lists && s0.level == 0;
    hide WfConfig, Step, EventOk, InitArb;
    OneBoostOneLevel(Step(cfg, s0, e).info[RES_ID].lists, a, b);
    ColdThenHot(cfg, e, hot);
  }

  /** A first event while the device is cold, and then it turns hot: what a performance level would lift is
      out of date. */
  lemma ColdThenHot(cfg: Config, e: Event, hot: Event)
    requires WfConfig(cfg) && EventOk(cfg, e) && e.Do? && hot == SetLevel(1) && RES_ID in cfg.nodes && PairOf(cfg, RES_ID) == None
    requires var s := Step(cfg, InitArb(cfg), e);
      s.level == 0 && !s.power && !s.thermal && FiveLists(s.info[RES_ID].lists) && LiftedWhenHot(CandidatesOf(s.info[RES_ID].lists), false, false)
    ensures EventsOk(cfg, [e, hot])
    ensures var s := Reach(cfg, [e, hot]);
      s.info[RES_ID].candidate != RebuiltNow(cfg, s, RES_ID).candidate && s.info[RES_ID].currentValue != RebuiltNow(cfg, s, RES_ID).currentValue
  {
    var s0 := InitArb(cfg);
    assert EventOk(cfg, hot) && [e] + [hot] == [e, hot];
    hide WfConfig, Step, EventOk, InitArb;
    OneEvent(cfg, s0, e);
    ReachLevel(cfg, [e]);
    var s := Reach(cfg, [e]);
    RunAppend(cfg, s0, [e], [hot]);
    OneEvent(cfg, s, hot);
    LevelStep(cfg, s, 1);
    StaleExactly(cfg, [e, hot], RES_ID);
  }

  lemma OneEvent(cfg: Config, s: Arb, e: Event)
    requires WfConfig(cfg) && Ready(cfg, s) && EventOk(cfg, e)
    ensures EventsOk(cfg, [e]) && Run(cfg, s, [e]) == Step(cfg, s, e)
  {
    hide Step, WfConfig;
    assert [e][1..] == [];
  }

  lemma OneBoostOneLevel(lists: seq<Live>, a: ResAction, b: ResAction)
    requires FiveLists(lists) && lists[PERF] == [a] && lists[PERFLVL] == [b] && lists[POWER] == [] && lists[THERMAL] == [] && a.value < b.value
    ensures LiftedWhenHot(CandidatesOf(lists), false, false)
  {
  }

  /** One more event of a run from start-up. */
  lemma ReachNext(cfg: Config, es: seq<Event>, e: Event)
    requires WfConfig(cfg) && EventsOk(cfg, es) && EventOk(cfg, e)
    ensures EventsOk(cfg, es + [e]) && Reach(cfg, es + [e]) == Step(cfg, Reach(cfg, es), e)
  {
    hide Step, WfConfig, EventOk;
    OneEvent(cfg, Reach(cfg, es), e);
    RunAppend(cfg, InitArb(cfg), es, [e]);
  }

  // ---- a limit that is exceeded ------------------------------------------------------------------------------------

  lemma ExceededBy(limit: ResAction, a: ResAction, b: ResAction)
    requires limit.Valid() && a.Valid() && b.Valid() && limit.onOff == EventOn && a.onOff == EventOn && b.onOff == EventOn
    requires limit.kind == POWER && a.kind == PERF && b.kind == PERFLVL && limit.value == 2 && b.value == 3
    ensures var cfg := OneResource();
      var es := [SetLevel(1), Do(PowerSwitch(true), [RES_ID]), Do(Limit(false, RES_ID, limit), [RES_ID]), Asking(a, b)];
      && WfConfig(cfg) && EventsOk(cfg, es) && RES_ID in cfg.nodes
      && Reach(cfg, es).power && LimitInForce(Reach(cfg, es), RES_ID, 2) && Reach(cfg, es).info[RES_ID].currentValue > 2
  {
    var cfg, hot, flip, file, ask := OneResource(), SetLevel(1), Do(PowerSwitch(true), [RES_ID]), Do(Limit(false, RES_ID, limit), [RES_ID]), Asking(a, b);
    var es := [hot, flip, file];
    assert es + [ask] == [hot, flip, file, ask];
    hide WfConfig, Step, EventOk, CurrentAt, LimitInForce, InitArb, Reach, Asking, OneResource;
    OneResourceOk();
    HotAndLimited(hot, flip, file, limit);
    AskedWhenHot(Reach(cfg, es), limit, a, b);
    ReachNext(cfg, es, ask);
    LimitExceeded(cfg, es + [ask], RES_ID, 2);
  }

  /** The device is hot, the power switch is on, and a client has a power limit of 2 filed. Then a client asks for
      a boost, whose thermal action brings a performance level of 3: more than the limit is applied. */
  lemma ExceededLimit()
    ensures var cfg, limit := OneResource(), LimitAction(0, POWER, 2, true);
      var boost := RequestItems(TwoCommands(), 1, ON_CALL, [BoostAction()], false, 1);
      var es := [SetLevel(1), Do(PowerSwitch(true), [RES_ID]), Do(Limit(false, RES_ID, limit), [RES_ID]), Do(Pack(boost), [RES_ID])];
      && WfConfig(cfg) && EventsOk(cfg, es) && RES_ID in cfg.nodes
      && Reach(cfg, es).power && LimitInForce(Reach(cfg, es), RES_ID, 2) && Reach(cfg, es).info[RES_ID].currentValue > 2
  {
    var a, b := ON_CALL.Template(0).(id := 1, value := 5), ON_CALL.ThermalTemplate(0).(id := 2, value := 3);
    hide RequestItems, LimitInForce, Reach, EventOk, WfConfig, OneResource, TwoCommands, BoostAction;
    ItemsOfCall(ON_CALL, 1, 3);
    ExceededBy(LimitAction(0, POWER, 2, true), a, b);
  }

  lemma HotAndOn(hot: Event, flip: Event)
    requires hot == SetLevel(1) && flip == Do(PowerSwitch(true), [RES_ID])
    ensures var cfg, es := OneResource(), [hot, flip];
      && WfConfig(cfg) && EventsOk(cfg, es)
      && var s := Reach(cfg, es);
      && Current(cfg, s) && s.level == 1 && s.power && !s.thermal && RES_ID in s.info && s.info[RES_ID].lists == InitStatus.lists
  {
    var cfg := OneResource();
    OneResourceOk();
    var s0 := InitArb(cfg);
    assert EventsOk(cfg, [hot]) && EventOk(cfg, flip);
    LevelStep(cfg, s0, 1);
    OneEvent(cfg, s0, hot);
    FlipOne(s0.(level := 1));
    hide WfConfig, Step, EventOk, InitArb, Current;
    ReachNext(cfg, [hot], flip);
    assert [hot] + [flip] == [hot, flip];
  }

  lemma HotAndLimited(hot: Event, flip: Event, file: Event, limit: ResAction)
    requires hot == SetLevel(1) && flip == Do(PowerSwitch(true), [RES_ID])
    requires file == Do(Limit(false, RES_ID, limit), [RES_ID]) && limit.Valid() && limit.onOff == EventOn
    ensures var cfg, es := OneResource(), [hot, flip, file];
      && WfConfig(cfg) && EventsOk(cfg, es)
      && var s := Reach(cfg, es);
      && Current(cfg, s) && s.level == 1 && s.power && !s.thermal && RES_ID in s.info
      && s.info[RES_ID].lists == InitStatus.lists[limit.kind := [limit]]
  {
    var cfg := OneResource();
    HotAndOn(hot, flip);
    hide WfConfig, Step, EventOk, Reach, Current;
    LimitFiled(Reach(cfg, [hot, flip]), limit);
    ReachNext(cfg, [hot, flip], file);
    assert [hot, flip] + [file] == [hot, flip, file];
  }

  lemma LimitStep(s: Arb, a: ResAction)
    requires WfConfig(OneResource()) && Ready(OneResource(), s) && a.Valid()
    ensures var e := Do(Limit(false, RES_ID, a), [RES_ID]);
      RES_ID in OneResource().nodes && EventOk(OneResource(), e) && Step(OneResource(), s, e) == DoInstant(OneResource(), s, RES_ID, a)
  {
    OneResourceOk();
    hide WfConfig, DoInstant;
    assert Ops(OneResource(), Do(Limit(false, RES_ID, a), [RES_ID])) == [Begin(RES_ID, a)];
    OneBegin(OneResource(), s, RES_ID, a);
  }

  /** A limit of a client is filed where nothing was. */
  lemma LimitFiled(s: Arb, a: ResAction)
    requires WfConfig(OneResource()) && Current(OneResource(), s) && RES_ID in s.info && s.info[RES_ID].lists == InitStatus.lists
    requires a.Valid() && a.onOff == EventOn
    ensures var e := Do(Limit(false, RES_ID, a), [RES_ID]);
      && EventOk(OneResource(), e)
      && var t := Step(OneResource(), s, e);
      && Current(OneResource(), t) && RES_ID in t.info && t.info[RES_ID].lists == s.info[RES_ID].lists[a.kind := [a]]
      && t.level == s.level && t.power == s.power && t.thermal == s.thermal
  {
    hide WfConfig, Step, CurrentAt, DoInstant;
    assert Instant([], a) == [a];
    LimitStep(s, a);
    StepCurrent(OneResource(), s, Do(Limit(false, RES_ID, a), [RES_ID]));
    InstantFrame(OneResource(), s, RES_ID, a);
    hide EventOk, Instant;
  }

  lemma AskedWhenHot(s: Arb, limit: ResAction, a: ResAction, b: ResAction)
    requires WfConfig(OneResource()) && Current(OneResource(), s) && s.level == 1 && s.power && !s.thermal && RES_ID in s.info
    requires a.Valid() && b.Valid() && a.onOff == EventOn && b.onOff == EventOn && a.kind == PERF && b.kind == PERFLVL && limit.value == 2 && b.value == 3
    requires s.info[RES_ID].lists == InitStatus.lists[POWER := [limit]]
    ensures EventOk(OneResource(), Asking(a, b)) && NotMin(OneResource(), RES_ID)
    ensures var t := Step(OneResource(), s, Asking(a, b));
      && t.power && RES_ID in t.info && Shaped(t.info[RES_ID]) && LimitInForce(t, RES_ID, 2)
      && t.info[RES_ID].lists[PERFLVL] != [] && t.info[RES_ID].candLevel != 0
      && (exists x :: x in t.info[RES_ID].lists[PERFLVL] && x.value > 2)
  {
    OneResourceOk();
    AskingLists(s, a, b);
    hide WfConfig, Step, EventOk, CurrentAt;
    StepCurrent(OneResource(), s, Asking(a, b));
    HotLimit(Step(OneResource(), s, Asking(a, b)), limit, b);
  }

  lemma HotLimit(s: Arb, a: ResAction, b: ResAction)
    requires WfConfig(OneResource()) && Current(OneResource(), s) && s.level == 1 && s.power && !s.thermal && RES_ID in s.info
    requires a.value == 2 && b.value == 3
    requires s.info[RES_ID].lists[POWER] == [a] && s.info[RES_ID].lists[PERFLVL] == [b]
    ensures LimitInForce(s, RES_ID, 2) && NotMin(OneResource(), RES_ID)
    ensures s.info[RES_ID].candLevel != 0 && (exists x :: x in s.info[RES_ID].lists[PERFLVL] && x.value > 2)
  {
    OneResourceOk();
    assert CurrentAt(s.info[RES_ID], s.level);
    assert a in s.info[RES_ID].lists[POWER] && b in s.info[RES_ID].lists[PERFLVL];
  }

  /** Flipping a switch on a hot device with nothing requested. */
  lemma FlipOne(s: Arb)
    requires Ready(OneResource(), s) && WfConfig(OneResource()) && !s.thermal
    requires RES_ID in s.info && s.info[RES_ID].lists == InitStatus.lists
    ensures EventOk(OneResource(), Do(PowerSwitch(true), [RES_ID]))
    ensures var t := Step(OneResource(), s, Do(PowerSwitch(true), [RES_ID]));
      t.power && !t.thermal && t.level == s.level && Current(OneResource(), t) && RES_ID in t.info && t.info[RES_ID].lists == InitStatus.lists
  {
    var cfg, op := OneResource(), SwitchPower(true, [RES_ID]);
    OneResourceOk();
    assert Ops(cfg, Do(PowerSwitch(true), [RES_ID])) == [op];
    assert ApplyAll(cfg, s, [op]) == Apply(cfg, s, op);
    hide Arbitrate, WfConfig;
    ArbitrateAllFrame(cfg, s.(power := true), [RES_ID]);
  }

  // ---- a request that its OFF does not take back -----------------------------------------------------------------

  lemma OnePair(cfg: Config, r: int, v: int)
    requires r in cfg.nodes
    ensures ValidPairs(cfg, [r, v]) == [(r, v)]
  {
    assert [r, v][2..] == [];
  }

  lemma NearestOfTwo(cool: Action, hot: Action)
    requires cool.thermalLvl == 1 && hot.thermalLvl == 2
    ensures Nearest([cool, hot], 1) == Some(0) && Nearest([cool, hot], 2) == Some(1)
  {
    assert [cool, hot][0] == cool && [cool, hot][1] == hot;
  }

  lemma OneAction(env: Env, c: Call, action: Action, id: nat)
    requires !c.Skips(action) && ValidPairs(env.cfg, action.variable) != []
    ensures var own := Drafts(ValidPairs(env.cfg, action.variable), c.Template(action.duration), id);
      RequestItems(env, 1, c, [action], false, id) ==
        own + Drafts(ThermalPairs(env, 1, c.level, action), c.ThermalTemplate(action.duration), id + |own|)
  {
    hide ThermalPairs;
    assert [action][1..] == [];
    assert RequestItems(env, 1, c, [action], false, id) == ActionItems(env, 1, c, action, false, id) + [];
  }

  /** A service with a boost command whose action has a thermal command with actions for levels 1 and 2. */
  function BoostAction(): Action {
    Action(2, -1, 0, [RES_ID, 5])
  }

  function ThermalActions(): seq<Action> {
    [Action(INVALID_THERMAL_CMD_ID, 1, 0, [RES_ID, 3]), Action(INVALID_THERMAL_CMD_ID, 2, 0, [RES_ID, 2])]
  }

  function TwoCommands(): Env {
    Env(OneResource(), map[1 := Actions(1, [BoostAction()], true), 2 := Actions(2, ThermalActions(), true)])
  }

  const ON_CALL: Call := Call(1, true, EventOn, PERF, 1, 0)
  const OFF_CALL: Call := Call(1, true, EventOff, PERF, 2, 0)

  lemma TwoCommandsOk()
    ensures Start(TwoCommands(), []) && ON_CALL.Valid() && OFF_CALL.Valid()
    ensures DurationsOk([BoostAction()]) && PairsOk(AllPairs(OneResource(), [BoostAction()]))
    ensures ThermalPairs(TwoCommands(), 1, 1, BoostAction()) == [(RES_ID, 3)] && ThermalPairs(TwoCommands(), 1, 2, BoostAction()) == [(RES_ID, 2)]
    ensures ValidPairs(OneResource(), BoostAction().variable) == [(RES_ID, 5)]
  {
    var cfg, cool, hot := OneResource(), ThermalActions()[0], ThermalActions()[1];
    OneResourceOk();
    OnePair(cfg, RES_ID, 5);
    OnePair(cfg, RES_ID, 3);
    OnePair(cfg, RES_ID, 2);
    NearestOfTwo(cool, hot);
    hide ValidPairs, Nearest, WfConfig;
    assert [BoostAction()][1..] == [] && ThermalActions()[1..] == [hot] && [hot][1..] == [];
    assert AllPairs(cfg, [BoostAction()]) == [(RES_ID, 5)];
    assert AllPairs(cfg, [hot]) == [(RES_ID, 2)];
    assert AllPairs(cfg, ThermalActions()) == [(RES_ID, 3)] + [(RES_ID, 2)];
  }

  /** Making an untimed request only queues its pack. */
  lemma PackAsked(env: Env, s: Sys, items: seq<Item>)
    requires WfSys(env, s) && s.q.ready == [] && items != [] && ItemsOk(env, s, items)
    requires forall i :: 0 <= i < |items| ==> items[i].action.duration == 0
    ensures Enabled(env, s, Request(items, []))
    ensures var t := SysStep(env, s, Request(items, []));
      WfSys(env, t) && t.q.ready == [Queued(s.q.now, Pack(items))] && t.arb == s.arb && t.inter == s.inter && t.nextId == s.nextId + |items|
  {
    assert DurationsOf(items, []);
    hide ItemsOk, WfSys, DurationsOf;
    SysStepOk(env, s, Request(items, []));
  }

  /** Without interactions, running a queued pack has its effect, and no more. */
  lemma PackRun(env: Env, s: Sys, items: seq<Item>, order: seq<int>)
    requires WfSys(env, s) && s.inter == [] && |s.q.ready| == 1 && s.q.ready[0].task == Pack(items) && Visits(order, env.cfg.nodes.Keys)
    ensures TaskOk(env.cfg, Pack(items)) && Enabled(env, s, RunNext(order))
    ensures var t := SysStep(env, s, RunNext(order));
      t.arb == ApplyAll(env.cfg, s.arb, PackOps(env.cfg, items)) && t.inter == [] && t.q.ready == [] && t.nextId == s.nextId
  {
    QueuedPack(env, s, items);
    hide WfConfig, CommandsOk, QueueOk, PackOps, Apply, Delta, RunTask, TaskOk;
    var s1, task := s.(q := s.q.(ready := s.q.ready[1..])), Pack(items);
    RunTaskSends(env, s1, task, order);
    assert Ops(env.cfg, Do(task, order)) == PackOps(env.cfg, items);
  }

  /** So an untimed request that is made and then run has its pack's effect. */
  lemma PackServed(env: Env, s: Sys, items: seq<Item>, order: seq<int>)
    requires WfSys(env, s) && s.inter == [] && s.q.ready == [] && items != [] && ItemsOk(env, s, items) && Visits(order, env.cfg.nodes.Keys)
    requires forall i :: 0 <= i < |items| ==> items[i].action.duration == 0
    ensures var es := [Request(items, []), RunNext(order)];
      && Possible(env, s, es) && TaskOk(env.cfg, Pack(items))
      && var t := SysRun(env, s, es);
      t.arb == ApplyAll(env.cfg, s.arb, PackOps(env.cfg, items)) && t.inter == [] && t.q.ready == [] && t.nextId == s.nextId + |items|
  {
    var a, b := Request(items, []), RunNext(order);
    PackAsked(env, s, items);
    hide ItemsOk, WfConfig, CommandsOk, QueueOk, PackOps, Apply, Enabled, SysStep, TaskOk;
    PackRun(env, SysStep(env, s, a), items, order);
    TwoEvents(env, s, a, b);
  }

  lemma QueuedPack(env: Env, s: Sys, items: seq<Item>)
    requires WfSys(env, s) && s.q.ready != [] && s.q.ready[0].task == Pack(items)
    ensures QueuedOk(env.cfg, Pack(items), |s.inter|) && TaskOk(env.cfg, Pack(items))
  {
  }

  lemma TwoEvents(env: Env, s: Sys, a: SysEvent, b: SysEvent)
    requires WfSys(env, s) && Enabled(env, s, a) && WfSys(env, SysStep(env, s, a)) && Enabled(env, SysStep(env, s, a), b)
    ensures Possible(env, s, [a, b]) && SysRun(env, s, [a, b]) == SysStep(env, SysStep(env, s, a), b)
  {
    hide SysStep, Enabled, WfSys, Possible, SysRun;
    OneSysEvent(env, s, a);
    OneSysEvent(env, SysStep(env, s, a), b);
    assert [a, b] == [a] + [b];
    SysRunAppend(env, s, [a], [b]);
  }

  lemma OneSysEvent(env: Env, s: Sys, e: SysEvent)
    requires WfSys(env, s) && Enabled(env, s, e)
    ensures Possible(env, s, [e]) && SysRun(env, s, [e]) == SysStep(env, s, e)
  {
    hide SysStep, Enabled, WfSys;
    SysStepOk(env, s, e);
    assert [e][1..] == [];
  }

  /** An ON request is made and run, the level is set, and an OFF request is made and run. */
  function RisingLevel(on: seq<Item>, level: int, off: seq<Item>): seq<SysEvent> {
    ([Request(on, []), RunNext([RES_ID])] + [SetThermal(level)]) + [Request(off, []), RunNext([RES_ID])]
  }

  lemma ServedTwice(env: Env, s: Sys, on: seq<Item>, level: int, off: seq<Item>)
    requires WfSys(env, s) && s.inter == [] && s.q.ready == [] && on != [] && off != [] && Visits([RES_ID], env.cfg.nodes.Keys)
    requires ItemsOk(env, s, on) && forall i :: 0 <= i < |on| ==> on[i].action.duration == 0
    requires ItemsOk(env, s.(nextId := s.nextId + |on|), off) && forall i :: 0 <= i < |off| ==> off[i].action.duration == 0
    requires TaskOk(env.cfg, Pack(on)) && TaskOk(env.cfg, Pack(off))
    ensures Possible(env, s, RisingLevel(on, level, off))
    ensures var t := SysRun(env, s, RisingLevel(on, level, off));
      t.q.ready == [] && t.arb == OnThenOff(env, s.arb, on, [Level(level)], off)
  {
    var first, second := [Request(on, []), RunNext([RES_ID])], [Request(off, []), RunNext([RES_ID])];
    var e := SetThermal(level);
    hide WfSys, Possible, SysRun, PackOps, Apply, Visits, TaskOk;
    PackServed(env, s, on, [RES_ID]);
    var s1 := SysRun(env, s, first);
    OneSysEvent(env, s1, e);
    SysRunAppend(env, s, first, [e]);
    var s2 := SysStep(env, s1, e);
    SysStepOk(env, s1, e);
    assert ItemsOk(env, s2, off);
    LevelOnly(env.cfg, s1.arb, level, 0);
    hide ItemsOk, SysStep;
    PackServed(env, s2, off, [RES_ID]);
    SysRunAppend(env, s, first + [e], second);
  }

  lemma ItemsOfCall(c: Call, id: nat, v: int)
    requires c == ON_CALL || c == OFF_CALL
    requires v == if c == ON_CALL then 3 else 2
    ensures RequestItems(TwoCommands(), 1, c, [BoostAction()], false, id) ==
      [Item(RES_ID, c.Template(0).(id := id, value := 5)), Item(RES_ID, c.ThermalTemplate(0).(id := id + 1, value := v))]
  {
    TwoCommandsOk();
    OneAction(TwoCommands(), c, BoostAction(), id);
  }

  lemma CallItemsOk(s: Sys, c: Call)
    requires (c == ON_CALL || c == OFF_CALL) && WfSys(TwoCommands(), s)
    ensures var items := RequestItems(TwoCommands(), 1, c, [BoostAction()], false, s.nextId);
      && |items| == 2 && ItemsOk(TwoCommands(), s, items) && TaskOk(OneResource(), Pack(items))
      && (forall i :: 0 <= i < |items| ==> items[i].action.duration == 0)
  {
    var items := RequestItems(TwoCommands(), 1, c, [BoostAction()], false, s.nextId);
    hide WfSys, RequestItems, WfConfig, CommandsOk, AllPairs, ValidPairs, ThermalPairs;
    TwoCommandsOk();
    StartGood();
    RequestItemsGood(TwoCommands(), 1, c, [BoostAction()], false, s.nextId);
    ItemsOfCall(c, s.nextId, if c == ON_CALL then 3 else 2);
    hide BoostAction, TwoCommands, OneResource;
    assert forall i :: 0 <= i < |items| ==> items[i].action.duration == 0;
  }

  lemma StartGood()
    ensures CommandsOk(TwoCommands())
  {
    TwoCommandsOk();
  }

  lemma ThermalsOfCalls()
    ensures ThermalAsked(TwoCommands(), 1, ON_CALL, [BoostAction()], RES_ID, 3, 0)
    ensures !ThermalAsked(TwoCommands(), 1, OFF_CALL, [BoostAction()], RES_ID, 3, 0)
  {
    var env, list := TwoCommands(), [BoostAction()];
    TwoCommandsOk();
    hide ValidPairs, ThermalPairs;
    assert HasItems(env, ON_CALL, list[0]) && Begun(env, ON_CALL, list, 0, false);
    assert BringsThermal(env, 1, ON_CALL, list[0], RES_ID, PERFLVL, 3, 0);
  }

  lemma KeptKey(s: Arb, on: seq<Item>, mid: seq<Op>, off: seq<Item>)
    requires Ready(OneResource(), s) && Agrees(OneResource(), s) && OpsOk(OneResource(), mid) && AllElsewhere(mid, 1)
    requires on == RequestItems(TwoCommands(), 1, ON_CALL, [BoostAction()], false, 0) && off == RequestItems(TwoCommands(), 1, OFF_CALL, [BoostAction()], false, 2)
    requires TaskOk(OneResource(), Pack(on)) && TaskOk(OneResource(), Pack(off))
    ensures RES_ID in OneResource().nodes
    ensures LiveKey(OnThenOff(TwoCommands(), s, on, mid, off).info[RES_ID].lists[PERFLVL], 1, 3, 0)
  {
    TwoCommandsOk();
    OneResourceOk();
    ThermalsOfCalls();
    ThermalIsAsked(TwoCommands(), 1, ON_CALL, [BoostAction()], RES_ID, 3, 0);
    ThermalIsAsked(TwoCommands(), 1, OFF_CALL, [BoostAction()], RES_ID, 3, 0);
    hide Agrees, RequestItems, OnThenOff, LiveKey, ValidPairs, ThermalPairs, RequestAsks, ThermalAsked, TaskOk, CommandsOk, WfConfig;
    LeftLive(TwoCommands(), 1, s, ON_CALL, OFF_CALL, [BoostAction()], 0, mid, 2, RES_ID, PERFLVL, 3, 0);
  }

  /** Both calls are made and run, the level rising from 1 to 2 in between. */
  lemma MissRun(s: Sys, on: seq<Item>, off: seq<Item>)
    requires WfSys(TwoCommands(), s) && s.inter == [] && s.q.ready == [] && s.nextId == 0
    requires on == RequestItems(TwoCommands(), 1, ON_CALL, [BoostAction()], false, 0) && off == RequestItems(TwoCommands(), 1, OFF_CALL, [BoostAction()], false, 2)
    ensures RES_ID in OneResource().nodes && TaskOk(OneResource(), Pack(on)) && TaskOk(OneResource(), Pack(off)) && OpsOk(OneResource(), [Level(2)])
    ensures Possible(TwoCommands(), s, RisingLevel(on, 2, off))
    ensures var t := SysRun(TwoCommands(), s, RisingLevel(on, 2, off)); t.q.ready == [] && t.arb == OnThenOff(TwoCommands(), s.arb, on, [Level(2)], off)
  {
    OneResourceOk();
    CallItemsOk(s, ON_CALL);
    CallItemsOk(s.(nextId := 2), OFF_CALL);
    LevelOnly(OneResource(), s.arb, 2, 1);
    hide OpsOk, RequestItems, RisingLevel, ItemsOk, Possible, SysRun, CommandsOk, QueueOk, WfConfig, TaskOk, OnThenOff;
    ServedTwice(TwoCommands(), s, on, 2, off);
  }

  lemma StartsReady()
    ensures var s := InitSys(TwoCommands(), []);
      && Start(TwoCommands(), []) && WfSys(TwoCommands(), s) && Agrees(OneResource(), s.arb)
      && s.inter == [] && s.q.ready == [] && s.nextId == 0
  {
    TwoCommandsOk();
    OneResourceOk();
    StartOk(TwoCommands(), []);
    InitAgrees(OneResource());
  }

  /** The level rises between an ON and its OFF. The service runs both to the end, nothing is waiting to run, and
      the thermal request of the ON is still live; the OFF's items did not match the ON's. */
  lemma OffMissesOn()
    ensures var env := TwoCommands();
      var on, off := RequestItems(env, 1, ON_CALL, [BoostAction()], false, 0), RequestItems(env, 1, OFF_CALL, [BoostAction()], false, 2);
      && Feasible(env, [], RisingLevel(on, 2, off)) && !Matching(on, off)
      && var s := ReachSys(env, [], RisingLevel(on, 2, off));
      s.q.ready == [] && LiveKey(s.arb.info[RES_ID].lists[PERFLVL], 1, 3, 0)
  {
    var env := TwoCommands();
    StartsReady();
    var s0 := InitSys(env, []);
    var on, off := RequestItems(env, 1, ON_CALL, [BoostAction()], false, 0), RequestItems(env, 1, OFF_CALL, [BoostAction()], false, 2);
    ItemsOfCall(ON_CALL, 0, 3);
    ItemsOfCall(OFF_CALL, 2, 2);
    assert on[1].action.value == 3 && off[1].action.value == 2 && |on| == 2;
    assert !Matching(on, off);
    hide RequestItems, RisingLevel, Matching, Agrees, Possible, SysRun, WfSys, InitSys, Start, OnThenOff, TaskOk;
    MissRun(s0, on, off);
    LevelOnly(OneResource(), s0.arb, 2, 1);
    KeptKey(s0.arb, on, [Level(2)], off);
  }
}
