/** A run of the service that leaves the boost counter at one with nothing live and nothing to run. */
module DriftWitness {
  import opened Common
  import opened Config
  import opened LiveList
  import opened ArbiterFacts
  import opened ArbiterState
  import opened Tasks
  import opened RunTheorems
  import opened Counter
  import opened System
  import opened SystemRuns
  import opened Requests
  import opened Witnesses

  function PlainAction(): Action {
    Action(INVALID_THERMAL_CMD_ID, -1, 0, [RES_ID, 5])
  }

  /** A service with one boost command, which is also the command of its one interaction. */
  function OneCommand(): Env {
    Env(OneResource(), map[1 := Actions(1, [PlainAction()], true)])
  }

  function Interaction(status: InterStatus, timer: Option<nat>): Inter {
    Inter(1, PERF, 1, status, timer)
  }

  /** What a client asks for, and what the interaction's own packs ask for: the same but for the flag. */
  function Wish(id: nat, onOff: EventType, interaction: bool): ResAction {
    ResAction(id, 5, 0, PERF, onOff, 1, MAX_INT_VALUE, interaction)
  }

  function OnePack(a: ResAction): Task {
    Pack([Item(RES_ID, a)])
  }

  lemma OneCommandOk()
    ensures WfConfig(OneResource()) && CommandsOk(OneCommand()) && RES_ID in OneResource().nodes && Visits([RES_ID], OneResource().nodes.Keys)
    ensures AllPairs(OneResource(), [PlainAction()]) == [(RES_ID, 5)]
  {
    OneResourceOk();
    OnePair(OneResource(), RES_ID, 5);
    assert [PlainAction()][1..] == [];
  }

  lemma BoostIsRequest()
    ensures RequestItems(OneCommand(), 1, ON_CALL, [PlainAction()], false, 0) == [Item(RES_ID, Wish(0, EventOn, true))]
  {
    OnePair(OneResource(), RES_ID, 5);
    OneAction(OneCommand(), ON_CALL, PlainAction(), 0);
  }

  /** The interaction posts its command's pack. */
  lemma WeakPosted(s: Sys, on: bool)
    requires |s.inter| == 1 && s.inter[0].cmdId == 1 && s.inter[0].actionType == PERF
    ensures DoWeak(OneCommand(), s, 0, on) == s.(weakLog := s.weakLog + [(0, on)],
      q := Submit(s.q, OnePack(Wish(s.nextId, if on then EventOn else EventOff, false))), nextId := s.nextId + 1)
  {
    OneCommandOk();
    hide AllPairs;
    assert WeakItems([(RES_ID, 5)], 1, on, PERF, s.nextId) == [Item(RES_ID, Wish(s.nextId, if on then EventOn else EventOff, false))];
  }

  /** What matters of the state: the perf list, the counter, the interaction and the tasks that wait. */
  ghost predicate Looks(s: Sys, live: Live, boost: int, it: Inter, waiting: seq<Task>, nextId: nat) {
    && s.weakOn && !s.perfMode && s.inter == [it]
    && RES_ID in s.arb.info && s.arb.info[RES_ID].lists == InitStatus.lists[PERF := live] && s.arb.boost == boost && s.arb.dropped == 0
    && |s.q.ready| == |waiting| && (forall k :: 0 <= k < |waiting| ==> s.q.ready[k].task == waiting[k]) && s.nextId == nextId
  }

  ghost predicate Stands(s: Sys, live: Live, boost: int, it: Inter, waiting: seq<Task>, nextId: nat) {
    WfSys(OneCommand(), s) && Looks(s, live, boost, it, waiting, nextId)
  }

  lemma OneTurn(s: Sys)
    requires |s.inter| == 1
    ensures WeakInteraction(OneCommand(), s) == WeakOne(OneCommand(), s, 0)
  {
    hide WeakOne;
    assert WeakFrom(OneCommand(), WeakOne(OneCommand(), s, 0), 1) == WeakOne(OneCommand(), s, 0);
  }

  /** A waiting request has been filed or withdrawn, and reported. */
  ghost function Ran(s: Sys, a: ResAction): Sys
    requires Ready(OneResource(), s.arb) && RES_ID in OneResource().nodes && a.Valid() && s.q.ready != []
  {
    Send(OneCommand(), s.(q := s.q.(ready := s.q.ready[1..]), arb := DoInstant(OneResource(), s.arb, RES_ID, a)))
  }

  lemma PackReady(s: Sys, a: ResAction)
    requires WfSys(OneCommand(), s) && |s.inter| == 1 && s.q.ready != [] && s.q.ready[0].task == OnePack(a) && a.Valid()
    ensures RES_ID in OneResource().nodes && Ready(OneResource(), s.arb) && |Ran(s, a).inter| == 1
    ensures QueuedOk(OneResource(), OnePack(a), 1) && Sends(OnePack(a)) && OneCommand().cfg == OneResource()
    ensures WfSys(OneCommand(), s) && Enabled(OneCommand(), s, RunNext([RES_ID]))
  {
    hide WfConfig, CommandsOk, QueueOk, DoInstant, Delta;
    OneCommandOk();
  }

  /** A pack of one request runs, and then the interaction takes its turn. */
  lemma PackTurn(s: Sys, a: ResAction)
    requires WfSys(OneCommand(), s) && |s.inter| == 1 && s.q.ready != [] && s.q.ready[0].task == OnePack(a) && a.Valid()
    ensures Enabled(OneCommand(), s, RunNext([RES_ID])) && RES_ID in OneResource().nodes && Ready(OneResource(), s.arb)
    ensures SysStep(OneCommand(), s, RunNext([RES_ID])) == WeakOne(OneCommand(), Ran(s, a), 0) && WfSys(OneCommand(), WeakOne(OneCommand(), Ran(s, a), 0))
  {
    hide WfSys, CommandsOk, QueueOk, WfConfig, WeakOne, Send, DoInstant, RunTask, Visits, QueuedOk, Step, WeakInteraction, OnePack;
    OneCommandOk();
    PackReady(s, a);
    SysStepOk(OneCommand(), s, RunNext([RES_ID]));
    PackIsBegin(s.arb, a);
    RunTaskSends(OneCommand(), s.(q := s.q.(ready := s.q.ready[1..])), OnePack(a), [RES_ID]);
    OneTurn(Ran(s, a));
  }

  lemma PackIsBegin(s: Arb, a: ResAction)
    requires Ready(OneResource(), s) && a.Valid() && WfConfig(OneResource()) && RES_ID in OneResource().nodes && Visits([RES_ID], OneResource().nodes.Keys)
    ensures EventOk(OneResource(), Do(OnePack(a), [RES_ID]))
    ensures Step(OneResource(), s, Do(OnePack(a), [RES_ID])) == DoInstant(OneResource(), s, RES_ID, a)
  {
    var cfg, items := OneResource(), [Item(RES_ID, a)];
    assert PackOps(cfg, items) == [Begin(RES_ID, a)] + PackOps(cfg, items[1..]);
    OneBegin(cfg, s, RES_ID, a);
    hide DoInstant;
    assert Ops(cfg, Do(Pack(items), [RES_ID])) == [Begin(RES_ID, a)];
  }

  /** The counter and the list after one request of the command; the rest waits as before. */
  lemma RanIs(s: Sys, live: Live, a: ResAction)
    requires WfSys(OneCommand(), s) && RES_ID in OneResource().nodes && s.arb.info[RES_ID].lists == InitStatus.lists[PERF := live]
    requires a.Valid() && a.kind == PERF && s.q.ready != []
    ensures var t := Ran(s, a);
      && RES_ID in t.arb.info && t.arb.info[RES_ID].lists == InitStatus.lists[PERF := Instant(live, a)] && t.arb.dropped == s.arb.dropped
      && t.arb.boost == Counted(s.arb.boost, live, a)
      && t.weakOn == s.weakOn && t.perfMode == s.perfMode && t.inter == s.inter && t.nextId == s.nextId && t.q == s.q.(ready := s.q.ready[1..])
  {
    InstantFrame(OneResource(), s.arb, RES_ID, a);
    BoostOf(OneResource(), s.arb, RES_ID, a);
    hide DoInstant, WfConfig, CommandsOk, QueueOk, Instant, Delta;
  }

  /** The tasks behind the first one. */
  lemma RestWaits(s: Sys, live: Live, boost: int, it: Inter, first: Task, rest: seq<Task>, nextId: nat)
    requires Looks(s, live, boost, it, [first] + rest, nextId)
    ensures |s.inter| == 1 && s.q.ready != [] && s.q.ready[0].task == first && RES_ID in s.arb.info && s.arb.info[RES_ID].lists == InitStatus.lists[PERF := live]
    ensures |s.q.ready[1..]| == |rest| && forall k :: 0 <= k < |rest| ==> s.q.ready[1..][k].task == rest[k]
  {
    var all := [first] + rest;
    assert all[0] == first && forall k :: 0 <= k < |rest| ==> all[k + 1] == rest[k];
    hide *;
  }

  lemma LooksAfter(s: Sys, t: Sys, live: Live, boost: int, it: Inter, first: Task, rest: seq<Task>, nextId: nat, live1: Live, boost1: int)
    requires Looks(s, live, boost, it, [first] + rest, nextId) && s.q.ready != []
    requires |s.q.ready[1..]| == |rest| && forall k :: 0 <= k < |rest| ==> s.q.ready[1..][k].task == rest[k]
    requires RES_ID in t.arb.info && t.arb.info[RES_ID].lists == InitStatus.lists[PERF := live1] && t.arb.boost == boost1 && t.arb.dropped == s.arb.dropped
    requires t.weakOn == s.weakOn && t.perfMode == s.perfMode && t.inter == s.inter && t.nextId == s.nextId && t.q == s.q.(ready := s.q.ready[1..])
    ensures Looks(t, live1, boost1, it, rest, nextId)
  {
  }

  lemma LooksBoost(s: Sys, live: Live, boost: int, it: Inter, waiting: seq<Task>, nextId: nat)
    requires Looks(s, live, boost, it, waiting, nextId)
    ensures s.arb.boost == boost
  {
  }

  lemma StandsLooks(s: Sys, live: Live, boost: int, it: Inter, waiting: seq<Task>, nextId: nat)
    ensures Stands(s, live, boost, it, waiting, nextId) <==> WfSys(OneCommand(), s) && Looks(s, live, boost, it, waiting, nextId)
  {
    hide WfSys, Looks;
  }

  /** What a request of the command makes of the counter. */
  function Counted(boost: int, live: Live, a: ResAction): int {
    boost + (if a.onOff == EventOff then 0 else One(a.interaction)) - One(a.interaction && Hit(live, if a.onOff == EventOff then OnOf(a) else Same(a)))
  }

  /** The first waiting pack has run, and the rest waits on. */
  lemma RanLooks(s: Sys, live: Live, boost: int, it: Inter, a: ResAction, rest: seq<Task>, nextId: nat)
    requires Stands(s, live, boost, it, [OnePack(a)] + rest, nextId) && a.Valid() && a.kind == PERF
    ensures Enabled(OneCommand(), s, RunNext([RES_ID])) && RES_ID in OneResource().nodes && s.q.ready != [] && WfSys(OneCommand(), s)
    ensures SysStep(OneCommand(), s, RunNext([RES_ID])) == WeakOne(OneCommand(), Ran(s, a), 0) && WfSys(OneCommand(), WeakOne(OneCommand(), Ran(s, a), 0))
    ensures Looks(Ran(s, a), Instant(live, a), Counted(boost, live, a), it, rest, nextId) && Ran(s, a).q.timers == s.q.timers
  {
    hide *;
    StandsLooks(s, live, boost, it, [OnePack(a)] + rest, nextId);
    RestWaits(s, live, boost, it, OnePack(a), rest, nextId);
    LooksBoost(s, live, boost, it, [OnePack(a)] + rest, nextId);
    PackTurn(s, a);
    RanIs(s, live, a);
    LooksAfter(s, Ran(s, a), live, boost, it, OnePack(a), rest, nextId, Instant(live, a), Counted(boost, live, a));
  }

  /** With boosting on, a weak interaction goes back and takes its own pack back. */
  lemma GoesBack(s: Sys)
    requires s.inter == [Interaction(WeakStatus, Some(0))] && s.arb.boost != 0
    ensures WeakOne(OneCommand(), s, 0) == s.(inter := [Interaction(BoostStatus, Some(0))], weakLog := s.weakLog + [(0, false)],
      q := Submit(s.q, OnePack(Wish(s.nextId, EventOff, false))), nextId := s.nextId + 1)
  {
    WeakPosted(SetInter(s, 0, BoostStatus, Some(0)), false);
    hide DoWeak, OnePack, Wish;
  }

  lemma BackLooks(s: Sys, live: Live, boost: int, waiting: seq<Task>, nextId: nat)
    requires Looks(s, live, boost, Interaction(WeakStatus, Some(0)), waiting, nextId) && boost != 0
    ensures var t := WeakOne(OneCommand(), s, 0);
      Looks(t, live, boost, Interaction(BoostStatus, Some(0)), waiting + [OnePack(Wish(nextId, EventOff, false))], nextId + 1) && t.q.timers == s.q.timers
  {
    GoesBack(s);
    hide WeakOne, OnePack, Wish;
  }

  /** With boosting on, a boosting interaction does nothing. */
  lemma StaysBoosting(s: Sys, live: Live, boost: int, waiting: seq<Task>, nextId: nat)
    requires Looks(s, live, boost, Interaction(BoostStatus, Some(0)), waiting, nextId) && boost != 0
    ensures WeakOne(OneCommand(), s, 0) == s
  {
  }

  // ---- the run, event by event -----------------------------------------------------------------------------------

  /** Weak mode is set again: boosting is over, and the interaction's timer starts. */
  lemma TimerStarts(s: Sys)
    requires Stands(s, [], 0, Interaction(BoostStatus, None), [SetWeak(true)], 0) && s.q.timers == map[] && s.q.nextHandle == 0 && s.q.now == 0
    ensures Enabled(OneCommand(), s, RunNext([RES_ID]))
    ensures var t := SysStep(OneCommand(), s, RunNext([RES_ID]));
      && Stands(t, [], 0, Interaction(BoostEnd, Some(0)), [], 0) && t.q.timers == map[0 := Timer(MICROS, WeakTimer(0))] && t.q.now == 0
  {
    OneCommandOk();
    SysStepOk(OneCommand(), s, RunNext([RES_ID]));
    hide WfConfig, CommandsOk, QueueOk;
    var s1 := s.(q := s.q.(ready := s.q.ready[1..]));
    OneTurn(s1.(weakOn := true));
  }

  /** The timer falls due, and at that moment a client asks for the interaction's command. */
  lemma DueAndAsked(s: Sys)
    requires Stands(s, [], 0, Interaction(BoostEnd, Some(0)), [], 0) && s.q.timers == map[0 := Timer(MICROS, WeakTimer(0))] && s.q.now == 0
    ensures var tick, ask := Tick(MICROS), Request([Item(RES_ID, Wish(0, EventOn, true))], []);
      && Enabled(OneCommand(), s, tick)
      && var s1 := SysStep(OneCommand(), s, tick);
      && WfSys(OneCommand(), s1) && Enabled(OneCommand(), s1, ask)
      && var t := SysStep(OneCommand(), s1, ask);
      && Stands(t, [], 0, Interaction(BoostEnd, Some(0)), [OnePack(Wish(0, EventOn, true))], 1)
      && t.q.timers == map[0 := Timer(MICROS, WeakTimer(0))] && CanFire(t.q, 0)
  {
    var tick, ask := Tick(MICROS), Request([Item(RES_ID, Wish(0, EventOn, true))], []);
    OneCommandOk();
    SysStepOk(OneCommand(), s, tick);
    var s1 := SysStep(OneCommand(), s, tick);
    assert DurationsOf([Item(RES_ID, Wish(0, EventOn, true))], []);
    SysStepOk(OneCommand(), s1, ask);
    hide WfSys;
  }

  /** The timer fires first: the interaction is weak and has posted its own pack behind the client's. */
  lemma TimerFires(s: Sys)
    requires Stands(s, [], 0, Interaction(BoostEnd, Some(0)), [OnePack(Wish(0, EventOn, true))], 1)
    requires s.q.timers == map[0 := Timer(MICROS, WeakTimer(0))] && CanFire(s.q, 0)
    ensures Enabled(OneCommand(), s, Fire(0, [RES_ID]))
    ensures var t := SysStep(OneCommand(), s, Fire(0, [RES_ID]));
      && Stands(t, [], 0, Interaction(WeakStatus, Some(0)), [OnePack(Wish(0, EventOn, true)), OnePack(Wish(1, EventOn, false))], 2)
      && t.q.timers == map[]
  {
    OneCommandOk();
    SysStepOk(OneCommand(), s, Fire(0, [RES_ID]));
    var s1 := SetInter(s.(q := Cancel(s.q, 0)), 0, WeakStatus, Some(0));
    WeakPosted(s1, true);
    hide WfSys, DoWeak, OnePack, Wish;
    assert Cancel(s.q, 0).timers == map[];
  }

  lemma WishesCount()
    ensures forall id :: Wish(id, EventOn, true).Valid() && Wish(id, EventOn, false).Valid() && Wish(id, EventOff, false).Valid()
    ensures Instant([], Wish(0, EventOn, true)) == [Wish(0, EventOn, true)] && Counted(0, [], Wish(0, EventOn, true)) == 1
    ensures Instant([Wish(0, EventOn, true)], Wish(1, EventOn, false)) == [Wish(1, EventOn, false)]
    ensures Instant([Wish(1, EventOn, false)], Wish(2, EventOff, false)) == []
    ensures forall live :: Counted(1, live, Wish(1, EventOn, false)) == 1 && Counted(1, live, Wish(2, EventOff, false)) == 1
    ensures forall id, onOff, interaction :: Wish(id, onOff, interaction).kind == PERF
  {
    assert !Hit([], Same(Wish(0, EventOn, true)));
  }

  /** The client's pack runs: boosting is on again, so the interaction takes its own pack back. */
  lemma ClientRuns(s: Sys)
    requires Stands(s, [], 0, Interaction(WeakStatus, Some(0)), [OnePack(Wish(0, EventOn, true)), OnePack(Wish(1, EventOn, false))], 2) && s.q.timers == map[]
    ensures Enabled(OneCommand(), s, RunNext([RES_ID]))
    ensures var t := SysStep(OneCommand(), s, RunNext([RES_ID]));
      && Stands(t, [Wish(0, EventOn, true)], 1, Interaction(BoostStatus, Some(0)), [OnePack(Wish(1, EventOn, false)), OnePack(Wish(2, EventOff, false))], 3)
      && t.q.timers == map[]
  {
    var a, back, own := Wish(0, EventOn, true), OnePack(Wish(2, EventOff, false)), OnePack(Wish(1, EventOn, false));
    assert [OnePack(a)] + [own] == [OnePack(a), own] && [own] + [back] == [own, back];
    hide *;
    WishesCount();
    RanLooks(s, [], 0, Interaction(WeakStatus, Some(0)), a, [own], 2);
    BackLooks(Ran(s, a), [a], 1, [own], 2);
    StandsLooks(WeakOne(OneCommand(), Ran(s, a), 0), [a], 1, Interaction(BoostStatus, Some(0)), [own, back], 3);
  }

  /** The interaction's ON takes the client's entry over, and the counter does not move. */
  lemma WeakRuns(s: Sys)
    requires Stands(s, [Wish(0, EventOn, true)], 1, Interaction(BoostStatus, Some(0)), [OnePack(Wish(1, EventOn, false)), OnePack(Wish(2, EventOff, false))], 3)
    requires s.q.timers == map[]
    ensures Enabled(OneCommand(), s, RunNext([RES_ID]))
    ensures var t := SysStep(OneCommand(), s, RunNext([RES_ID]));
      && Stands(t, [Wish(1, EventOn, false)], 1, Interaction(BoostStatus, Some(0)), [OnePack(Wish(2, EventOff, false))], 3) && t.q.timers == map[]
  {
    var a, was, back := Wish(1, EventOn, false), [Wish(0, EventOn, true)], OnePack(Wish(2, EventOff, false));
    assert [OnePack(a)] + [back] == [OnePack(a), back];
    hide *;
    WishesCount();
    RanLooks(s, was, 1, Interaction(BoostStatus, Some(0)), a, [back], 3);
    StaysBoosting(Ran(s, a), [a], 1, [back], 3);
    StandsLooks(Ran(s, a), [a], 1, Interaction(BoostStatus, Some(0)), [back], 3);
  }

  /** The interaction's OFF withdraws it, and the counter does not move. */
  lemma OffRuns(s: Sys)
    requires Stands(s, [Wish(1, EventOn, false)], 1, Interaction(BoostStatus, Some(0)), [OnePack(Wish(2, EventOff, false))], 3) && s.q.timers == map[]
    ensures Enabled(OneCommand(), s, RunNext([RES_ID]))
    ensures var t := SysStep(OneCommand(), s, RunNext([RES_ID]));
      Stands(t, [], 1, Interaction(BoostStatus, Some(0)), [], 3) && t.q.timers == map[]
  {
    var a, was := Wish(2, EventOff, false), [Wish(1, EventOn, false)];
    assert [OnePack(a)] + [] == [OnePack(a)];
    hide *;
    WishesCount();
    RanLooks(s, was, 1, Interaction(BoostStatus, Some(0)), a, [], 3);
    StaysBoosting(Ran(s, a), [], 1, [], 3);
    StandsLooks(Ran(s, a), [], 1, Interaction(BoostStatus, Some(0)), [], 3);
  }

  // ---- the whole run -----------------------------------------------------------------------------------------------

  /** One more event of a run from start-up. */
  lemma ReachSysNext(env: Env, inter: seq<Inter>, es: seq<SysEvent>, e: SysEvent)
    requires Feasible(env, inter, es) && Enabled(env, ReachSys(env, inter, es), e)
    ensures Feasible(env, inter, es + [e]) && ReachSys(env, inter, es + [e]) == SysStep(env, ReachSys(env, inter, es), e)
  {
    StartOk(env, inter);
    hide SysStep, Enabled, WfSys, Start;
    OneSysEvent(env, ReachSys(env, inter, es), e);
    SysRunAppend(env, InitSys(env, inter), es, [e]);
  }

  function UntilAsked(): seq<SysEvent> {
    [Post(SetWeak(true)), RunNext([RES_ID]), Tick(MICROS), Request([Item(RES_ID, Wish(0, EventOn, true))], [])]
  }

  function Drifting(): seq<SysEvent> {
    UntilAsked() + [Fire(0, [RES_ID]), RunNext([RES_ID]), RunNext([RES_ID]), RunNext([RES_ID])]
  }

  lemma StartsBoosting(inter: seq<Inter>)
    requires inter == [Interaction(BoostStatus, None)]
    ensures Feasible(OneCommand(), inter, [Post(SetWeak(true))])
    ensures var s := ReachSys(OneCommand(), inter, [Post(SetWeak(true))]);
      Stands(s, [], 0, Interaction(BoostStatus, None), [SetWeak(true)], 0) && s.q.timers == map[] && s.q.nextHandle == 0 && s.q.now == 0
  {
    OneCommandOk();
    StartOk(OneCommand(), inter);
    var s0 := InitSys(OneCommand(), inter);
    assert Enabled(OneCommand(), s0, Post(SetWeak(true)));
    OneSysEvent(OneCommand(), s0, Post(SetWeak(true)));
    SysStepOk(OneCommand(), s0, Post(SetWeak(true)));
    hide WfSys, Possible, SysRun;
  }

  lemma AskedRun(inter: seq<Inter>)
    requires inter == [Interaction(BoostStatus, None)]
    ensures Feasible(OneCommand(), inter, UntilAsked())
    ensures var s := ReachSys(OneCommand(), inter, UntilAsked());
      && Stands(s, [], 0, Interaction(BoostEnd, Some(0)), [OnePack(Wish(0, EventOn, true))], 1)
      && s.q.timers == map[0 := Timer(MICROS, WeakTimer(0))] && CanFire(s.q, 0)
  {
    var env, es := OneCommand(), [Post(SetWeak(true))];
    var start, tick, ask := RunNext([RES_ID]), Tick(MICROS), Request([Item(RES_ID, Wish(0, EventOn, true))], []);
    assert UntilAsked() == es + [start] + [tick] + [ask];
    StartsBoosting(inter);
    hide *;
    TimerStarts(ReachSys(env, inter, es));
    ReachSysNext(env, inter, es, start);
    DueAndAsked(ReachSys(env, inter, es + [start]));
    ReachSysNext(env, inter, es + [start], tick);
    ReachSysNext(env, inter, es + [start] + [tick], ask);
  }

  lemma FiredRun(inter: seq<Inter>)
    requires inter == [Interaction(BoostStatus, None)]
    ensures Feasible(OneCommand(), inter, UntilAsked() + [Fire(0, [RES_ID])])
    ensures var s := ReachSys(OneCommand(), inter, UntilAsked() + [Fire(0, [RES_ID])]);
      && Stands(s, [], 0, Interaction(WeakStatus, Some(0)), [OnePack(Wish(0, EventOn, true)), OnePack(Wish(1, EventOn, false))], 2)
      && s.q.timers == map[]
  {
    var env := OneCommand();
    AskedRun(inter);
    hide *;
    TimerFires(ReachSys(env, inter, UntilAsked()));
    ReachSysNext(env, inter, UntilAsked(), Fire(0, [RES_ID]));
  }

  lemma DriftingRun(inter: seq<Inter>)
    requires inter == [Interaction(BoostStatus, None)]
    ensures Feasible(OneCommand(), inter, Drifting())
    ensures var s := ReachSys(OneCommand(), inter, Drifting());
      Stands(s, [], 1, Interaction(BoostStatus, Some(0)), [], 3) && s.q.timers == map[]
  {
    var env, next, es := OneCommand(), RunNext([RES_ID]), UntilAsked() + [Fire(0, [RES_ID])];
    assert Drifting() == es + [next] + [next] + [next];
    FiredRun(inter);
    hide *;
    ClientRuns(ReachSys(env, inter, es));
    ReachSysNext(env, inter, es, next);
    WeakRuns(ReachSys(env, inter, es + [next]));
    ReachSysNext(env, inter, es + [next], next);
    OffRuns(ReachSys(env, inter, es + [next] + [next]));
    ReachSysNext(env, inter, es + [next] + [next], next);
  }

  lemma NothingLive(s: Sys)
    requires Stands(s, [], 1, Interaction(BoostStatus, Some(0)), [], 3)
    ensures Ready(OneResource(), s.arb) && s.arb.boost == 1 && s.arb.dropped == 0 && s.q.ready == []
    ensures RES_ID in s.arb.info && s.arb.info[RES_ID].lists == InitStatus.lists
    ensures LiveInteractive(OneResource(), s.arb) == 0
  {
    hide LiveBelow;
    assert forall q :: q in OneResource().nodes ==> q == RES_ID;
    NoneLive(OneResource(), MAX_RESOURCE_ID + 1);
    SameListsSameTotal(OneResource(), InitArb(OneResource()), s.arb, MAX_RESOURCE_ID + 1);
  }

  /** An interaction's timer fires while a client's request of the interaction's own command waits. The client's
      entry is counted, the interaction's ON takes it over and its OFF withdraws it, neither with the flag. In the
      end one interactive request is counted, nothing is live, and nothing waits to run. */
  lemma DriftedCounter()
    ensures RequestItems(OneCommand(), 1, ON_CALL, [PlainAction()], false, 0) == [Item(RES_ID, Wish(0, EventOn, true))]
    ensures var inter := [Interaction(BoostStatus, None)];
      && Feasible(OneCommand(), inter, Drifting())
      && var s := ReachSys(OneCommand(), inter, Drifting());
      && s.arb.boost == 1 && s.arb.dropped == 0 && LiveInteractive(OneResource(), s.arb) == 0
      && RES_ID in s.arb.info && s.arb.info[RES_ID].lists == InitStatus.lists && s.q.ready == [] && s.q.timers == map[]
  {
    var inter := [Interaction(BoostStatus, None)];
    BoostIsRequest();
    DriftingRun(inter);
    hide Stands, Feasible, ReachSys, RequestItems, LiveInteractive, Drifting;
    NothingLive(ReachSys(OneCommand(), inter, Drifting()));
  }
}
